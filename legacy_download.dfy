/// The older one-pass downloader. Every mapping line "key,cdnPath" is
/// handled in turn: the preview first, then a probing scan of every face and
/// level, a line in a success or an error log, and the removal of the key's
/// lines from the mapping file. At the end the mapping file is reconciled
/// against the success log.
module LegacyDownload {
  import opened Common
  import opened Text
  import opened Tiles

  const FACES: seq<string> := ["f", "b", "l", "r", "u", "d"]
  const FIRST_LEVEL := 1
  const LAST_LEVEL := 5
  const MAX_ROW := 20
  const MAX_COL := 20
  const MAX_RETRY := 2
  const BASE_URL := "https://imgscdn.ajun720.cn"
  const INPUT_FILE := "product-mapping-image-key.txt"
  const OUTPUT_DIR := "image_crawl"
  const ERROR_FILE := "error_fetch_image.txt"
  const SUCCESS_FILE := "success_fetch_image.txt"
  const LOG_FILES: seq<string> := [ERROR_FILE, SUCCESS_FILE]
  /** The separator of the log lines, " → ". */
  const ARROW := " \U{2192} "

  // ---------------------------------------------------------------------
  // download_with_retry

  /** GET tried at most MAX_RETRY times, at once and with every failure
      (raised or not 200) swallowed: the body of the first 200, or None. */
  method DownloadWithRetry(outs: seq<Attempt>) returns (content: Option<seq<byte>>, attempts: nat)
    ensures content == FirstOk(outs, 0, MAX_RETRY)
    ensures 1 <= attempts <= MAX_RETRY
    ensures content.Some? ==> IsOk(AttemptAt(outs, attempts - 1))
    ensures content.None? ==> attempts == MAX_RETRY
  {
    attempts := 0;
    while attempts < MAX_RETRY
      invariant 0 <= attempts <= MAX_RETRY
      invariant FirstOk(outs, 0, MAX_RETRY) == FirstOk(outs, attempts, MAX_RETRY)
    {
      var r := AttemptAt(outs, attempts);
      attempts := attempts + 1;
      if r.Response? && r.status == 200 {
        return Some(r.body), attempts;
      }
    }
    content := None;
  }

  // ---------------------------------------------------------------------
  // reading the mapping file and the logs

  /** A comma survives strip(): strip only drops whitespace. */
  lemma StripKeepsComma(s: string)
    requires ',' in s
    ensures ',' in Strip(s)
  {
    var j :| 0 <= j < |s| && s[j] == ',';
    StripKeepsChar(s, j);
  }

  /** `[line.strip() for line in f if "," in line]`: the lines holding a
      comma, stripped. */
  function CommaLines(lines: seq<string>): (r: seq<string>)
    ensures |r| <= |lines|
    ensures forall i :: 0 <= i < |r| ==> ',' in r[i] && IsStripped(r[i])
  {
    if lines == [] then []
    else
      var rest := CommaLines(lines[1..]);
      if ',' in lines[0] then
        var x := Strip(lines[0]);
        StripKeepsComma(lines[0]);
        ConsCommaStripped(x, rest);
        [x] + rest
      else rest
  }

  lemma ConsCommaStripped(x: string, rest: seq<string>)
    requires ',' in x && IsStripped(x)
    requires forall i :: 0 <= i < |rest| ==> ',' in rest[i] && IsStripped(rest[i])
    ensures forall i :: 0 <= i < |[x] + rest| ==> ',' in ([x] + rest)[i] && IsStripped(([x] + rest)[i])
  {
    forall i | 0 <= i < |[x] + rest|
      ensures ',' in ([x] + rest)[i] && IsStripped(([x] + rest)[i])
    {
      if i > 0 {
        assert ([x] + rest)[i] == rest[i - 1];
      }
    }
  }

  /** Exactly the stripped comma lines are kept. */
  lemma {:induction false} CommaLinesMembers(lines: seq<string>, m: string)
    ensures m in CommaLines(lines) <==> exists l :: l in lines && ',' in l && Strip(l) == m
  {
    if lines != [] {
      CommaLinesMembers(lines[1..], m);
      assert forall l :: l in lines <==> l == lines[0] || l in lines[1..];
    }
  }

  /** The comma lines of a concatenation are those of each part, in order. */
  lemma {:induction false} CommaLinesAppend(a: seq<string>, b: seq<string>)
    ensures CommaLines(a + b) == CommaLines(a) + CommaLines(b)
  {
    if a != [] {
      assert (a + b)[0] == a[0] && (a + b)[1..] == a[1..] + b;
      CommaLinesAppend(a[1..], b);
    } else {
      assert a + b == b;
    }
  }

  /** `s.split(sep)[0]`: the text before the first occurrence of sep, or all
      of s when sep does not occur. */
  function Before(s: string, sep: string): (r: string)
    requires sep != []
    ensures StartsWith(s, r)
    decreases |s|
  {
    if |s| < |sep| then s
    else if s[..|sep|] == sep then []
    else [s[0]] + Before(s[1..], sep)
  }

  /** `line.split(",", 1)[0]` is the key that split(",", 1) unpacks. */
  lemma KeyBeforeComma(line: string)
    requires ',' in line
    ensures Before(line, ",") == SplitOnce(line, ',').value.0
  {
    var kv := SplitOnce(line, ',').value;
    assert line == kv.0 + "," + kv.1;
    BeforeComma(kv.0, kv.1);
  }

  /** The text before the first comma is all of a comma-free prefix. */
  lemma {:induction false} BeforeComma(x: string, y: string)
    requires ',' !in x
    ensures Before(x + "," + y, ",") == x
  {
    var s := x + "," + y;
    if x == [] {
      assert s[..1] == ",";
    } else {
      assert s[..1] != "," by { assert s[0] == x[0]; }
      assert s[1..] == x[1..] + "," + y;
      BeforeComma(x[1..], y);
      HeadTail(x);
    }
  }

  /** The key of a log line written for a key without an arrow character is
      that key again. */
  lemma {:induction false} LogLineKey(key: string, rest: string)
    requires '\U{2192}' !in key
    ensures Before(key + ARROW + rest, ARROW) == key
  {
    var s := key + ARROW + rest;
    if key == [] {
      assert s[..|ARROW|] == ARROW;
    } else {
      assert s[1] != '\U{2192}' by {
        if |key| >= 2 { assert s[1] == key[1]; } else { assert s[1] == ' '; }
      }
      assert s[..|ARROW|] != ARROW;
      assert s[1..] == key[1..] + ARROW + rest;
      LogLineKey(key[1..], rest);
      assert [key[0]] + key[1..] == key;
    }
  }

  /** `{line.split(" → ")[0] for line in f}`: the keys of the success log. */
  function DoneKeys(lines: seq<string>): (done: set<string>)
    ensures forall l :: l in lines ==> Before(l, ARROW) in done
  {
    set l | l in lines :: Before(l, ARROW)
  }

  /** The lines the final rewrite writes: each remaining mapping whose key
      (the text before its first comma) is not among `done`, with a newline. */
  function KeepUndone(lines: seq<string>, done: set<string>): (r: seq<string>)
    ensures |r| <= |lines|
  {
    if lines == [] then []
    else (if Before(lines[0], ",") in done then [] else [lines[0] + "\n"]) + KeepUndone(lines[1..], done)
  }

  lemma {:induction false} KeepUndoneAppend(a: seq<string>, b: seq<string>, done: set<string>)
    ensures KeepUndone(a + b, done) == KeepUndone(a, done) + KeepUndone(b, done)
  {
    if a != [] {
      assert (a + b)[0] == a[0] && (a + b)[1..] == a[1..] + b;
      KeepUndoneAppend(a[1..], b, done);
    } else {
      assert a + b == b;
    }
  }

  /** The final rewrite keeps exactly the mappings whose key is not done. */
  lemma {:induction false} KeepUndoneMembers(lines: seq<string>, done: set<string>, l: string)
    ensures l in KeepUndone(lines, done) <==> exists m :: m in lines && Before(m, ",") !in done && l == m + "\n"
  {
    if lines != [] {
      KeepUndoneMembers(lines[1..], done, l);
      assert forall m :: m in lines <==> m == lines[0] || m in lines[1..];
    }
  }

  /** `[line for line in f if not line.startswith(f"{key},")]`. */
  function RemoveKey(lines: seq<string>, key: string): (r: seq<string>)
    ensures |r| <= |lines|
  {
    if lines == [] then []
    else (if StartsWith(lines[0], key + ",") then [] else [lines[0]]) + RemoveKey(lines[1..], key)
  }

  /** Every line starting with "key," goes, duplicates included; every
      other line stays. */
  lemma {:induction false} RemoveKeyMembers(lines: seq<string>, key: string, l: string)
    ensures l in RemoveKey(lines, key) <==> l in lines && !StartsWith(l, key + ",")
  {
    if lines != [] {
      RemoveKeyMembers(lines[1..], key, l);
      assert l in lines <==> l == lines[0] || l in lines[1..];
    }
  }

  /** Removal keeps the order: it acts on each part of the file separately. */
  lemma {:induction false} RemoveKeyAppend(a: seq<string>, b: seq<string>, key: string)
    ensures RemoveKey(a + b, key) == RemoveKey(a, key) + RemoveKey(b, key)
  {
    if a != [] {
      assert (a + b)[0] == a[0] && (a + b)[1..] == a[1..] + b;
      RemoveKeyAppend(a[1..], b, key);
    } else {
      assert a + b == b;
    }
  }

  /** Removing a key twice removes nothing more. */
  lemma {:induction false} RemoveKeyIdempotent(lines: seq<string>, key: string)
    ensures RemoveKey(RemoveKey(lines, key), key) == RemoveKey(lines, key)
  {
    if lines != [] {
      RemoveKeyIdempotent(lines[1..], key);
      var head := if StartsWith(lines[0], key + ",") then [] else [lines[0]];
      RemoveKeyAppend(head, RemoveKey(lines[1..], key), key);
      if head != [] {
        assert RemoveKey(head, key) == head by {
          assert head[1..] == [];
        }
      }
    }
  }

  /** The lines kept from a file still read back as themselves: only the
      file's last line may lack a newline, and it stays last. */
  lemma {:induction false} RemoveKeyKeepsLines(lines: seq<string>, key: string)
    requires forall i :: 0 <= i < |lines| ==> IsLine(lines[i])
    requires forall i :: 0 <= i < |lines| - 1 ==> EndsInNewline(lines[i])
    ensures forall i :: 0 <= i < |RemoveKey(lines, key)| ==> IsLine(RemoveKey(lines, key)[i])
    ensures forall i :: 0 <= i < |RemoveKey(lines, key)| - 1 ==> EndsInNewline(RemoveKey(lines, key)[i])
  {
    if lines != [] {
      RemoveKeyKeepsLines(lines[1..], key);
      var rest := RemoveKey(lines[1..], key);
      if !StartsWith(lines[0], key + ",") {
        var r := RemoveKey(lines, key);
        assert r == [lines[0]] + rest;
        forall i | 0 <= i < |r| - 1 ensures EndsInNewline(r[i]) {
          if i == 0 { assert |lines| >= 2; } else { assert r[i] == rest[i - 1]; }
        }
      }
    }
  }

  /** After the removal the mapping file reads back as the kept lines. */
  lemma RemoveKeyReadBack(t: string, key: string)
    ensures FileLines(Concat(RemoveKey(FileLines(t), key))) == RemoveKey(FileLines(t), key)
  {
    RemoveKeyKeepsLines(FileLines(t), key);
    FileLinesOfConcat(RemoveKey(FileLines(t), key));
  }

  // ---------------------------------------------------------------------
  // the scan of one item

  /** Which tiles (face, level, row, col) the downloads bring back. */
  type Oracle = (string, int, int, int) -> bool

  /** What download_with_retry returns for a tile. */
  function TileBody(net: Network, cdnPath: string, t: TileId): Option<seq<byte>> {
    FirstOk(net(TileUrl(BASE_URL, cdnPath, t)), 0, MAX_RETRY)
  }

  function BodyOf(b: Option<seq<byte>>): seq<byte> {
    if b.Some? then b.value else []
  }

  function Probe(net: Network, cdnPath: string): Oracle {
    (face: string, lv: int, row: int, col: int) => Fetched(TileBody(net, cdnPath, TileId(face, lv, row, col)))
  }

  /** `present` holds, for every tile under cdnPath, whether downloading it
      brings back a body. */
  ghost predicate Answers(present: Oracle, net: Network, cdnPath: string) {
    forall face, lv, row, col {:trigger present(face, lv, row, col)} ::
      present(face, lv, row, col) == Fetched(TileBody(net, cdnPath, TileId(face, lv, row, col)))
  }

  lemma ProbeAnswers(net: Network, cdnPath: string)
    ensures Answers(Probe(net, cdnPath), net, cdnPath)
  {
  }

  /** The tiles saved by the column loop of one row from column c on: up to
      the first missing one, at most MAX_COL. */
  function ColTiles(present: Oracle, face: string, lv: int, row: int, c: int): (ts: seq<TileId>)
    requires 1 <= c <= MAX_COL + 1
    decreases MAX_COL + 1 - c
  {
    if c > MAX_COL || !present(face, lv, row, c) then []
    else [TileId(face, lv, row, c)] + ColTiles(present, face, lv, row, c + 1)
  }

  /** The tiles saved by the row loop from row r on: it stops after a row
      that saved nothing, or after MAX_ROW. */
  function RowsFrom(present: Oracle, face: string, lv: int, r: int): (ts: seq<TileId>)
    requires 1 <= r <= MAX_ROW + 1
    decreases MAX_ROW + 1 - r
  {
    if r > MAX_ROW then []
    else
      var saved := ColTiles(present, face, lv, r, 1);
      if saved == [] then [] else saved + RowsFrom(present, face, lv, r + 1)
  }

  /** A level is scanned only when its anchor tile (1,1) is present. */
  function LevelTiles(present: Oracle, face: string, lv: int): seq<TileId> {
    if !present(face, lv, 1, 1) then [] else RowsFrom(present, face, lv, 1)
  }

  /** The tiles of one face, levels lv .. LAST_LEVEL: a missing level is
      skipped and the next one is still tried. */
  function LevelsFrom(present: Oracle, face: string, lv: int): seq<TileId>
    requires FIRST_LEVEL <= lv <= LAST_LEVEL + 1
  {
    Levels(l => LevelTiles(present, face, l), lv)
  }

  /** The chunks of levels lv .. LAST_LEVEL, one after the other. */
  function Levels(chunk: int -> seq<TileId>, lv: int): seq<TileId>
    requires FIRST_LEVEL <= lv <= LAST_LEVEL + 1
    decreases LAST_LEVEL + 1 - lv
  {
    if lv > LAST_LEVEL then [] else chunk(lv) + Levels(chunk, lv + 1)
  }

  function FacesFrom(present: Oracle, faces: seq<string>): seq<TileId> {
    if faces == [] then []
    else LevelsFrom(present, faces[0], FIRST_LEVEL) + FacesFrom(present, faces[1..])
  }

  /** Every tile the scan of one item saves, in the order it saves them. */
  function ItemTiles(present: Oracle): seq<TileId> {
    FacesFrom(present, FACES)
  }

  lemma {:induction false} ColTilesMembers(present: Oracle, face: string, lv: int, row: int, c: int, t: TileId)
    requires 1 <= c <= MAX_COL + 1
    ensures t in ColTiles(present, face, lv, row, c) <==>
              t.face == face && t.level == lv && t.row == row && c <= t.col <= MAX_COL
              && forall k :: c <= k <= t.col ==> present(face, lv, row, k)
    decreases MAX_COL + 1 - c
  {
    if c <= MAX_COL && present(face, lv, row, c) {
      ColTilesMembers(present, face, lv, row, c + 1, t);
    }
  }

  /** The tiles below row r: the rows r .. t.row all start with a present
      tile, and the columns 1 .. t.col of t's row are all present. */
  ghost predicate ReachedFrom(present: Oracle, face: string, lv: int, r: int, t: TileId) {
    t.face == face && t.level == lv && r <= t.row <= MAX_ROW && 1 <= t.col <= MAX_COL
    && (forall k :: r <= k <= t.row ==> present(face, lv, k, 1))
    && (forall k :: 1 <= k <= t.col ==> present(face, lv, t.row, k))
  }

  lemma {:induction false} RowsFromSound(present: Oracle, face: string, lv: int, r: int, t: TileId)
    requires 1 <= r <= MAX_ROW + 1
    requires t in RowsFrom(present, face, lv, r)
    ensures ReachedFrom(present, face, lv, r, t)
    decreases MAX_ROW + 1 - r
  {
    var saved := ColTiles(present, face, lv, r, 1);
    assert RowsFrom(present, face, lv, r) == saved + RowsFrom(present, face, lv, r + 1);
    assert present(face, lv, r, 1);
    if t in saved {
      ColTilesMembers(present, face, lv, r, 1, t);
      assert t.face == face && t.level == lv && t.row == r && 1 <= t.col <= MAX_COL;
      assert forall k :: 1 <= k <= t.col ==> present(face, lv, r, k);
      forall k | r <= k <= t.row ensures present(face, lv, k, 1) {
        assert k == r;
      }
    } else {
      RowsFromSound(present, face, lv, r + 1, t);
      forall k | r <= k <= t.row ensures present(face, lv, k, 1) {
        if k != r {
          assert r + 1 <= k;
        }
      }
    }
  }

  lemma {:induction false} RowsFromComplete(present: Oracle, face: string, lv: int, r: int, t: TileId)
    requires 1 <= r <= MAX_ROW + 1
    requires ReachedFrom(present, face, lv, r, t)
    ensures t in RowsFrom(present, face, lv, r)
    decreases MAX_ROW + 1 - r
  {
    var saved := ColTiles(present, face, lv, r, 1);
    assert present(face, lv, r, 1);
    assert saved == [TileId(face, lv, r, 1)] + ColTiles(present, face, lv, r, 2);
    assert RowsFrom(present, face, lv, r) == saved + RowsFrom(present, face, lv, r + 1);
    if t.row == r {
      ColTilesMembers(present, face, lv, r, 1, t);
    } else {
      assert ReachedFrom(present, face, lv, r + 1, t);
      RowsFromComplete(present, face, lv, r + 1, t);
    }
  }

  lemma LevelTilesMembers(present: Oracle, face: string, lv: int, t: TileId)
    ensures t in LevelTiles(present, face, lv) <==> ReachedFrom(present, face, lv, 1, t)
  {
    if t in LevelTiles(present, face, lv) {
      RowsFromSound(present, face, lv, 1, t);
    }
    if ReachedFrom(present, face, lv, 1, t) {
      RowsFromComplete(present, face, lv, 1, t);
    }
  }

  lemma LevelTilesLevel(present: Oracle, face: string, lv: int, t: TileId)
    ensures t in LevelTiles(present, face, lv) ==> t.face == face && t.level == lv
  {
    LevelTilesMembers(present, face, lv, t);
  }

  lemma LevelsFromStep(present: Oracle, face: string, lv: int)
    requires FIRST_LEVEL <= lv <= LAST_LEVEL
    ensures LevelsFrom(present, face, lv) == LevelTiles(present, face, lv) + LevelsFrom(present, face, lv + 1)
  {
  }

  lemma {:induction false} LevelsComplete(chunk: int -> seq<TileId>, lv: int, k: int, t: TileId)
    requires FIRST_LEVEL <= lv <= k <= LAST_LEVEL
    requires t in chunk(k)
    ensures t in Levels(chunk, lv)
    decreases LAST_LEVEL + 1 - lv
  {
    if k != lv {
      LevelsComplete(chunk, lv + 1, k, t);
    }
  }

  lemma {:induction false} LevelsSound(chunk: int -> seq<TileId>, lv: int, t: TileId) returns (k: int)
    requires FIRST_LEVEL <= lv <= LAST_LEVEL + 1
    requires t in Levels(chunk, lv)
    ensures lv <= k <= LAST_LEVEL && t in chunk(k)
    decreases LAST_LEVEL + 1 - lv
  {
    if t in chunk(lv) {
      k := lv;
    } else {
      k := LevelsSound(chunk, lv + 1, t);
    }
  }

  /** A tile the level loop saves belongs to one of the levels 1 .. 5. */
  lemma LevelsFromSound(present: Oracle, face: string, t: TileId)
    requires t in LevelsFrom(present, face, FIRST_LEVEL)
    ensures FIRST_LEVEL <= t.level <= LAST_LEVEL && t in LevelTiles(present, face, t.level)
  {
    var k := LevelsSound(l => LevelTiles(present, face, l), FIRST_LEVEL, t);
    LevelTilesLevel(present, face, k, t);
  }

  /** Every tile of every level 1 .. 5 is saved by the level loop. */
  lemma LevelsFromComplete(present: Oracle, face: string, t: TileId)
    requires FIRST_LEVEL <= t.level <= LAST_LEVEL
    requires t in LevelTiles(present, face, t.level)
    ensures t in LevelsFrom(present, face, FIRST_LEVEL)
  {
    LevelsComplete(l => LevelTiles(present, face, l), FIRST_LEVEL, t.level, t);
  }

  /** The tiles one face's level loop saves. */
  lemma LevelsFromMembers(present: Oracle, face: string, t: TileId)
    ensures t in LevelsFrom(present, face, FIRST_LEVEL) <==>
              FIRST_LEVEL <= t.level <= LAST_LEVEL && ReachedFrom(present, face, t.level, 1, t)
  {
    LevelTilesMembers(present, face, t.level, t);
    if t in LevelsFrom(present, face, FIRST_LEVEL) {
      LevelsFromSound(present, face, t);
    }
    if FIRST_LEVEL <= t.level <= LAST_LEVEL && ReachedFrom(present, face, t.level, 1, t) {
      LevelsFromComplete(present, face, t);
    }
  }

  lemma {:induction false} FacesFromMembers(present: Oracle, faces: seq<string>, t: TileId)
    ensures t in FacesFrom(present, faces) <==> t.face in faces && t in LevelsFrom(present, t.face, FIRST_LEVEL)
  {
    if faces != [] {
      FacesFromMembers(present, faces[1..], t);
      LevelsFromMembers(present, faces[0], t);
      LevelsFromMembers(present, t.face, t);
      LevelTilesLevel(present, faces[0], t.level, t);
      assert t.face in faces <==> t.face == faces[0] || t.face in faces[1..];
    }
  }

  /** The scan of one item saves exactly the tiles of the six faces and the
      levels 1 .. 5 whose row lies in the run of rows 1 .. 20 that start
      with a present tile, and whose column lies in the run of present
      columns 1 .. 20 of that row. Nothing about one level decides another:
      a level whose anchor is missing saves nothing, and the next level is
      scanned all the same. */
  lemma ItemTilesMembers(present: Oracle, t: TileId)
    ensures t in ItemTiles(present) <==>
              t.face in FACES && FIRST_LEVEL <= t.level <= LAST_LEVEL
              && 1 <= t.row <= MAX_ROW && 1 <= t.col <= MAX_COL
              && (forall k :: 1 <= k <= t.row ==> present(t.face, t.level, k, 1))
              && (forall k :: 1 <= k <= t.col ==> present(t.face, t.level, t.row, k))
  {
    FacesFromReached(present, FACES, t);
    ReachedFromOne(present, t);
  }

  lemma ReachedFromOne(present: Oracle, t: TileId)
    ensures ReachedFrom(present, t.face, t.level, 1, t) <==>
              1 <= t.row <= MAX_ROW && 1 <= t.col <= MAX_COL
              && (forall k :: 1 <= k <= t.row ==> present(t.face, t.level, k, 1))
              && (forall k :: 1 <= k <= t.col ==> present(t.face, t.level, t.row, k))
  {
  }

  lemma FacesFromReached(present: Oracle, faces: seq<string>, t: TileId)
    ensures t in FacesFrom(present, faces) <==>
              t.face in faces && FIRST_LEVEL <= t.level <= LAST_LEVEL && ReachedFrom(present, t.face, t.level, 1, t)
  {
    FacesFromMembers(present, faces, t);
    LevelsFromMembers(present, t.face, t);
  }

  /** A level whose anchor is missing contributes no tile. */
  lemma MissingAnchorSkipsLevel(present: Oracle, t: TileId)
    requires !present(t.face, t.level, 1, 1)
    ensures t !in ItemTiles(present)
  {
    ItemTilesMembers(present, t);
  }

  /** os.path.join(product_path, face, level, str(row), filename). */
  function TilePath(productPath: string, t: TileId): string {
    PathJoin(PathJoin(PathJoin(PathJoin(productPath, t.face), LevelName(t.level)), IntToString(t.row)), TileName(t))
  }

  /** The images after saving `tiles` one after the other. */
  function Store(blobs: map<string, seq<byte>>, net: Network, cdnPath: string, productPath: string, tiles: seq<TileId>)
    : map<string, seq<byte>>
    decreases |tiles|
  {
    if tiles == [] then blobs
    else Store(blobs[TilePath(productPath, tiles[0]) := BodyOf(TileBody(net, cdnPath, tiles[0]))],
               net, cdnPath, productPath, tiles[1..])
  }

  lemma {:induction false} StoreAppend(blobs: map<string, seq<byte>>, net: Network, cdnPath: string, productPath: string,
                                       xs: seq<TileId>, ys: seq<TileId>)
    ensures Store(blobs, net, cdnPath, productPath, xs + ys)
              == Store(Store(blobs, net, cdnPath, productPath, xs), net, cdnPath, productPath, ys)
    decreases |xs|
  {
    if xs != [] {
      assert (xs + ys)[0] == xs[0] && (xs + ys)[1..] == xs[1..] + ys;
      StoreAppend(blobs[TilePath(productPath, xs[0]) := BodyOf(TileBody(net, cdnPath, xs[0]))],
                  net, cdnPath, productPath, xs[1..], ys);
    } else {
      assert xs + ys == ys;
    }
  }

  /** Saving tiles adds exactly their paths and leaves every other image as
      it was. */
  lemma {:induction false} StoreTouchesOnlyTiles(blobs: map<string, seq<byte>>, net: Network, cdnPath: string,
                                                 productPath: string, tiles: seq<TileId>, p: string)
    ensures (p in Store(blobs, net, cdnPath, productPath, tiles))
              <==> p in blobs || exists t :: t in tiles && TilePath(productPath, t) == p
    ensures (forall t :: t in tiles ==> TilePath(productPath, t) != p) && p in blobs ==>
              Store(blobs, net, cdnPath, productPath, tiles)[p] == blobs[p]
    decreases |tiles|
  {
    if tiles != [] {
      var next := blobs[TilePath(productPath, tiles[0]) := BodyOf(TileBody(net, cdnPath, tiles[0]))];
      StoreTouchesOnlyTiles(next, net, cdnPath, productPath, tiles[1..], p);
      assert forall t :: t in tiles <==> t == tiles[0] || t in tiles[1..];
    }
  }

  /** The anchor probe's URL, written out as the script does, is the URL of
      the level's tile (1,1). */
  lemma AnchorIsFirstTile(cdnPath: string, face: string, lv: int)
    ensures BASE_URL + "/" + cdnPath + "/" + face + "/" + LevelName(lv) + "/1/" + LevelName(lv) + "_" + face + "_1_1.jpg"
              == TileUrl(BASE_URL, cdnPath, TileId(face, lv, 1, 1))
  {
    var l := LevelName(lv);
    assert IntToString(1) == "1";
    assert TileName(TileId(face, lv, 1, 1)) == l + "_" + face + "_1_1.jpg";
  }

  /** The column loop of one row: save tiles until the first one that does
      not come back; report whether any was saved. */
  method ScanRow(disk: Disk, net: Network, cdnPath: string, productPath: string, face: string, lv: int, row: int,
                 ghost present: Oracle)
    returns (foundInRow: bool)
    requires Answers(present, net, cdnPath)
    modifies disk
    ensures foundInRow == (ColTiles(present, face, lv, row, 1) != [])
    ensures disk.blobs == Store(old(disk.blobs), net, cdnPath, productPath, ColTiles(present, face, lv, row, 1))
    ensures disk.text == old(disk.text)
  {
    foundInRow := false;
    for col := 1 to MAX_COL + 1
      invariant foundInRow == (col > 1)
      invariant col > 1 ==> present(face, lv, row, 1)
      invariant Store(disk.blobs, net, cdnPath, productPath, ColTiles(present, face, lv, row, col))
                == Store(old(disk.blobs), net, cdnPath, productPath, ColTiles(present, face, lv, row, 1))
      invariant disk.text == old(disk.text)
    {
      var t := TileId(face, lv, row, col);
      var filename := TileName(t);
      var content, _ := DownloadWithRetry(net(TileUrl(BASE_URL, cdnPath, t)));
      assert content == TileBody(net, cdnPath, t);
      if Fetched(content) {
        var localDir := PathJoin(PathJoin(PathJoin(productPath, face), LevelName(lv)), IntToString(row));
        disk.WriteBlob(PathJoin(localDir, filename), content.value);
        foundInRow := true;
      } else {
        break;
      }
    }
    assert foundInRow ==> ColTiles(present, face, lv, row, 1)[0] == TileId(face, lv, row, 1);
  }

  /** The row loop of one level: scan rows until one saves nothing. */
  method ScanLevel(disk: Disk, net: Network, cdnPath: string, productPath: string, face: string, lv: int,
                   ghost present: Oracle)
    requires Answers(present, net, cdnPath)
    modifies disk
    ensures disk.blobs == Store(old(disk.blobs), net, cdnPath, productPath, RowsFrom(present, face, lv, 1))
    ensures disk.text == old(disk.text)
  {
    for row := 1 to MAX_ROW + 1
      invariant Store(disk.blobs, net, cdnPath, productPath, RowsFrom(present, face, lv, row))
                == Store(old(disk.blobs), net, cdnPath, productPath, RowsFrom(present, face, lv, 1))
      invariant disk.text == old(disk.text)
    {
      ghost var before := disk.blobs;
      var foundInRow := ScanRow(disk, net, cdnPath, productPath, face, lv, row, present);
      if !foundInRow {
        break;
      }
      StoreAppend(before, net, cdnPath, productPath,
                  ColTiles(present, face, lv, row, 1), RowsFrom(present, face, lv, row + 1));
    }
  }

  /** One round of the level loop: probe the anchor tile and scan the level
      only when it came back. */
  method ScanLevelIfAnchored(disk: Disk, net: Network, cdnPath: string, productPath: string, face: string, lv: int,
                             ghost present: Oracle)
    requires Answers(present, net, cdnPath)
    modifies disk
    ensures disk.blobs == Store(old(disk.blobs), net, cdnPath, productPath, LevelTiles(present, face, lv))
    ensures disk.text == old(disk.text)
  {
    var testUrl := TileUrl(BASE_URL, cdnPath, TileId(face, lv, 1, 1));
    var anchor, _ := DownloadWithRetry(net(testUrl));
    assert anchor == TileBody(net, cdnPath, TileId(face, lv, 1, 1));
    if !Fetched(anchor) {
      return;
    }
    ScanLevel(disk, net, cdnPath, productPath, face, lv, present);
  }

  /** The level loop of one face: every level 1 .. 5 is tried, and one
      whose anchor tile does not come back is skipped (`continue`). */
  method ScanFace(disk: Disk, net: Network, cdnPath: string, productPath: string, face: string,
                  ghost present: Oracle)
    requires Answers(present, net, cdnPath)
    modifies disk
    ensures disk.blobs == Store(old(disk.blobs), net, cdnPath, productPath, LevelsFrom(present, face, FIRST_LEVEL))
    ensures disk.text == old(disk.text)
  {
    for levelNum := FIRST_LEVEL to LAST_LEVEL + 1
      invariant Store(disk.blobs, net, cdnPath, productPath, LevelsFrom(present, face, levelNum))
                == Store(old(disk.blobs), net, cdnPath, productPath, LevelsFrom(present, face, FIRST_LEVEL))
      invariant disk.text == old(disk.text)
    {
      ghost var before := disk.blobs;
      ScanLevelIfAnchored(disk, net, cdnPath, productPath, face, levelNum, present);
      LevelsStep(before, disk.blobs, net, cdnPath, productPath, present, face, levelNum,
                 Store(old(disk.blobs), net, cdnPath, productPath, LevelsFrom(present, face, FIRST_LEVEL)));
    }
    assert LevelsFrom(present, face, LAST_LEVEL + 1) == [];
  }

  /** One round of the level loop keeps what is still to be stored. */
  lemma LevelsStep(before: map<string, seq<byte>>, after: map<string, seq<byte>>, net: Network,
                   cdnPath: string, productPath: string, present: Oracle, face: string, lv: int,
                   goal: map<string, seq<byte>>)
    requires FIRST_LEVEL <= lv <= LAST_LEVEL
    requires Store(before, net, cdnPath, productPath, LevelsFrom(present, face, lv)) == goal
    requires after == Store(before, net, cdnPath, productPath, LevelTiles(present, face, lv))
    ensures Store(after, net, cdnPath, productPath, LevelsFrom(present, face, lv + 1)) == goal
  {
    LevelsFromStep(present, face, lv);
    StoreAppend(before, net, cdnPath, productPath, LevelTiles(present, face, lv), LevelsFrom(present, face, lv + 1));
  }

  /** The face loop of one item, over the faces in the order given. */
  method ScanFaces(disk: Disk, net: Network, cdnPath: string, productPath: string, faces: seq<string>,
                   ghost present: Oracle)
    requires Answers(present, net, cdnPath)
    modifies disk
    ensures disk.blobs == Store(old(disk.blobs), net, cdnPath, productPath, FacesFrom(present, faces))
    ensures disk.text == old(disk.text)
  {
    ghost var goal := Store(disk.blobs, net, cdnPath, productPath, FacesFrom(present, faces));
    for k := 0 to |faces|
      invariant Store(disk.blobs, net, cdnPath, productPath, FacesFrom(present, faces[k..])) == goal
      invariant disk.text == old(disk.text)
    {
      FacesStep(disk.blobs, net, cdnPath, productPath, present, faces, k);
      ScanFace(disk, net, cdnPath, productPath, faces[k], present);
    }
    assert faces[|faces|..] == [];
  }

  lemma FacesStep(blobs: map<string, seq<byte>>, net: Network, cdnPath: string, productPath: string,
                  present: Oracle, faces: seq<string>, k: int)
    requires 0 <= k < |faces|
    ensures Store(blobs, net, cdnPath, productPath, FacesFrom(present, faces[k..]))
              == Store(Store(blobs, net, cdnPath, productPath, LevelsFrom(present, faces[k], FIRST_LEVEL)),
                       net, cdnPath, productPath, FacesFrom(present, faces[k + 1..]))
  {
    assert faces[k..][1..] == faces[k + 1..];
    StoreAppend(blobs, net, cdnPath, productPath,
                LevelsFrom(present, faces[k], FIRST_LEVEL), FacesFrom(present, faces[k + 1..]));
  }

  /** The scan of one item: every face in FACES order. */
  method ScanItem(disk: Disk, net: Network, cdnPath: string, productPath: string, ghost present: Oracle)
    requires Answers(present, net, cdnPath)
    modifies disk
    ensures disk.blobs == Store(old(disk.blobs), net, cdnPath, productPath, ItemTiles(present))
    ensures disk.text == old(disk.text)
  {
    ScanFaces(disk, net, cdnPath, productPath, FACES, present);
  }

  // ---------------------------------------------------------------------
  // one mapping line

  /** The log line of an item, "key → cdnPath". */
  function LogLine(key: string, cdnPath: string): string {
    key + ARROW + cdnPath + "\n"
  }

  /** What download_with_retry returns for the preview. */
  function PreviewBody(net: Network, cdnPath: string): Option<seq<byte>> {
    FirstOk(net(PreviewUrl(BASE_URL, cdnPath)), 0, MAX_RETRY)
  }

  /** The text files after an item whose preview came back: its line is
      appended to the success log, then every line starting with "key," is
      dropped from the mapping file. */
  function DoneText(text: map<string, string>, key: string, cdnPath: string): map<string, string> {
    var logged := AppendText(text, SUCCESS_FILE, LogLine(key, cdnPath));
    logged[INPUT_FILE := Concat(RemoveKey(FileLines(ReadText(logged, INPUT_FILE)), key))]
  }

  /** The images after an item whose preview came back: the preview, then
      every tile the scan saves. */
  function ItemImages(blobs: map<string, seq<byte>>, net: Network, key: string, cdnPath: string)
    : map<string, seq<byte>>
    requires PreviewBody(net, cdnPath).Some?
  {
    var productPath := PathJoin(OUTPUT_DIR, key);
    Store(blobs[PathJoin(productPath, "preview.jpg") := PreviewBody(net, cdnPath).value],
          net, cdnPath, productPath, ItemTiles(Probe(net, cdnPath)))
  }

  /** What handling one mapping line does to the files. A preview that does
      not come back is logged to the error file and nothing else changes;
      otherwise the preview and the scanned tiles are saved, the success
      log gets its line, and the key's lines leave the mapping file. */
  function MappingEffect(fs: Files, net: Network, line: string): Files
    requires ',' in line
  {
    var kv := SplitOnce(line, ',').value;
    var key, cdnPath := kv.0, kv.1;
    if !Fetched(PreviewBody(net, cdnPath)) then Files(AppendText(fs.text, ERROR_FILE, LogLine(key, cdnPath)), fs.blobs)
    else Files(DoneText(fs.text, key, cdnPath), ItemImages(fs.blobs, net, key, cdnPath))
  }

  /** The body of the loop over the mappings. */
  method ProcessMapping(disk: Disk, net: Network, line: string)
    requires ',' in line
    modifies disk
    ensures Files(disk.text, disk.blobs) == MappingEffect(Files(old(disk.text), old(disk.blobs)), net, line)
  {
    var kv := SplitOnce(line, ',');
    var productKey, cdnPath := kv.value.0, kv.value.1;
    var productPath := PathJoin(OUTPUT_DIR, productKey);
    var previewPath := PathJoin(productPath, "preview.jpg");
    var content, _ := DownloadWithRetry(net(PreviewUrl(BASE_URL, cdnPath)));
    if !Fetched(content) {
      disk.Append(ERROR_FILE, LogLine(productKey, cdnPath));
      return;
    }
    disk.WriteBlob(previewPath, content.value);
    ProbeAnswers(net, cdnPath);
    ScanItem(disk, net, cdnPath, productPath, Probe(net, cdnPath));
    disk.Append(SUCCESS_FILE, LogLine(productKey, cdnPath));
    var remaining := RemoveKey(FileLines(disk.Contents(INPUT_FILE)), productKey);
    disk.Write(INPUT_FILE, Concat(remaining));
  }

  lemma FileNamesDistinct()
    ensures INPUT_FILE != ERROR_FILE && INPUT_FILE != SUCCESS_FILE && ERROR_FILE != SUCCESS_FILE
  {
    assert |INPUT_FILE| == 29 && |ERROR_FILE| == 21 && |SUCCESS_FILE| == 23;
  }

  /** A preview that does not come back only appends the item's line to the
      error log: the mapping file, the success log and the images stay. */
  lemma PreviewFailureOnlyLogs(fs: Files, net: Network, line: string, key: string, cdnPath: string)
    requires SplitOnce(line, ',') == Some((key, cdnPath))
    requires !Fetched(PreviewBody(net, cdnPath))
    ensures MappingEffect(fs, net, line).blobs == fs.blobs
    ensures ReadText(MappingEffect(fs, net, line).text, ERROR_FILE) == ReadText(fs.text, ERROR_FILE) + LogLine(key, cdnPath)
    ensures forall p :: p != ERROR_FILE ==> ReadText(MappingEffect(fs, net, line).text, p) == ReadText(fs.text, p)
  {
  }

  /** After a preview that came back, the success log gets the item's line
      whatever the scan found, and the error log is untouched. */
  lemma DoneTextLogs(text: map<string, string>, key: string, cdnPath: string)
    ensures ReadText(DoneText(text, key, cdnPath), SUCCESS_FILE) == ReadText(text, SUCCESS_FILE) + LogLine(key, cdnPath)
    ensures ReadText(DoneText(text, key, cdnPath), ERROR_FILE) == ReadText(text, ERROR_FILE)
  {
    FileNamesDistinct();
  }

  /** After a preview that came back, the mapping file reads back as its
      old lines minus those starting with "key,". */
  lemma DoneTextRemovesKey(text: map<string, string>, key: string, cdnPath: string)
    ensures FileLines(ReadText(DoneText(text, key, cdnPath), INPUT_FILE))
              == RemoveKey(FileLines(ReadText(text, INPUT_FILE)), key)
  {
    FileNamesDistinct();
    RemoveKeyReadBack(ReadText(text, INPUT_FILE), key);
  }

  /** After a preview that came back, the images gain the preview and every
      scanned tile, and lose nothing. */
  lemma ItemImagesGrow(blobs: map<string, seq<byte>>, net: Network, key: string, cdnPath: string)
    requires PreviewBody(net, cdnPath).Some?
    ensures blobs.Keys <= ItemImages(blobs, net, key, cdnPath).Keys
    ensures PathJoin(PathJoin(OUTPUT_DIR, key), "preview.jpg") in ItemImages(blobs, net, key, cdnPath)
    ensures forall t :: t in ItemTiles(Probe(net, cdnPath)) ==>
              TilePath(PathJoin(OUTPUT_DIR, key), t) in ItemImages(blobs, net, key, cdnPath)
  {
    var productPath := PathJoin(OUTPUT_DIR, key);
    var first := blobs[PathJoin(productPath, "preview.jpg") := PreviewBody(net, cdnPath).value];
    var tiles := ItemTiles(Probe(net, cdnPath));
    forall p | p in first
      ensures p in Store(first, net, cdnPath, productPath, tiles)
    {
      StoreTouchesOnlyTiles(first, net, cdnPath, productPath, tiles, p);
    }
    forall t | t in tiles
      ensures TilePath(productPath, t) in Store(first, net, cdnPath, productPath, tiles)
    {
      StoreTouchesOnlyTiles(first, net, cdnPath, productPath, tiles, TilePath(productPath, t));
    }
  }

  // ---------------------------------------------------------------------
  // the whole run

  /** Missing log files are created empty. */
  function CreateLogs(text: map<string, string>, logs: seq<string>): (r: map<string, string>)
    ensures forall p :: p in logs ==> p in r
    ensures forall p :: p in text ==> p in r
    ensures forall p :: p in r ==> p in text || p in logs
    decreases |logs|
  {
    if logs == [] then text
    else CreateLogs(if logs[0] in text then text else text[logs[0] := ""], logs[1..])
  }

  /** Creating the logs changes no file that exists. */
  lemma {:induction false} CreateLogsKeeps(text: map<string, string>, logs: seq<string>, p: string)
    requires p in text
    ensures CreateLogs(text, logs)[p] == text[p]
    decreases |logs|
  {
    if logs != [] {
      CreateLogsKeeps(if logs[0] in text then text else text[logs[0] := ""], logs[1..], p);
    }
  }

  /** The loop creating the missing log files. */
  method CreateMissingLogs(disk: Disk)
    modifies disk
    ensures disk.text == CreateLogs(old(disk.text), LOG_FILES)
    ensures disk.blobs == old(disk.blobs)
  {
    for i := 0 to |LOG_FILES|
      invariant CreateLogs(disk.text, LOG_FILES[i..]) == CreateLogs(old(disk.text), LOG_FILES)
      invariant disk.blobs == old(disk.blobs)
    {
      assert LOG_FILES[i..][0] == LOG_FILES[i] && LOG_FILES[i..][1..] == LOG_FILES[i + 1..];
      if LOG_FILES[i] !in disk.text {
        disk.Write(LOG_FILES[i], "");
      }
    }
    assert LOG_FILES[|LOG_FILES|..] == [];
  }

  /** The loop over the mappings read at the start. */
  function MappingsEffect(fs: Files, net: Network, mappings: seq<string>): Files
    requires forall i :: 0 <= i < |mappings| ==> ',' in mappings[i]
    decreases |mappings|
  {
    if mappings == [] then fs
    else MappingsEffect(MappingEffect(fs, net, mappings[0]), net, mappings[1..])
  }

  /** The final rewrite: the remaining mappings whose key is not in the
      success log. */
  function Reconcile(fs: Files): Files {
    var original := CommaLines(FileLines(ReadText(fs.text, INPUT_FILE)));
    var done := DoneKeys(FileLines(ReadText(fs.text, SUCCESS_FILE)));
    Files(fs.text[INPUT_FILE := Concat(KeepUndone(original, done))], fs.blobs)
  }

  /** The whole script; a missing mapping file makes it raise right after
      the logs are created. */
  function RunEffect(fs: Files, net: Network): Files {
    var text := CreateLogs(fs.text, LOG_FILES);
    if INPUT_FILE !in text then Files(text, fs.blobs)
    else Reconcile(MappingsEffect(Files(text, fs.blobs), net, CommaLines(FileLines(text[INPUT_FILE]))))
  }

  /** The loop of the final rewrite: what it writes to the mapping file. */
  method WriteUndone(originalLines: seq<string>, doneKeys: set<string>) returns (written: string)
    ensures written == Concat(KeepUndone(originalLines, doneKeys))
  {
    written := "";
    for i := 0 to |originalLines|
      invariant written == Concat(KeepUndone(originalLines[..i], doneKeys))
    {
      var key := Before(originalLines[i], ",");
      KeepUndoneAppend(originalLines[..i], [originalLines[i]], doneKeys);
      assert originalLines[..i + 1] == originalLines[..i] + [originalLines[i]];
      ConcatAppend(KeepUndone(originalLines[..i], doneKeys), KeepUndone([originalLines[i]], doneKeys));
      if key !in doneKeys {
        written := written + (originalLines[i] + "\n");
      }
    }
    assert originalLines[..|originalLines|] == originalLines;
  }

  /** The script from top to bottom; ok is false where it raises because the
      mapping file is missing. */
  method Run(disk: Disk, net: Network) returns (ok: bool)
    modifies disk
    ensures ok == (INPUT_FILE in old(disk.text))
    ensures Files(disk.text, disk.blobs) == RunEffect(Files(old(disk.text), old(disk.blobs)), net)
  {
    CreateMissingLogs(disk);
    if INPUT_FILE !in disk.text {
      return false;
    }
    ok := true;
    var mappings := CommaLines(FileLines(disk.text[INPUT_FILE]));
    ghost var goal := MappingsEffect(Files(disk.text, disk.blobs), net, mappings);
    for i := 0 to |mappings|
      invariant MappingsEffect(Files(disk.text, disk.blobs), net, mappings[i..]) == goal
    {
      assert mappings[i..][0] == mappings[i] && mappings[i..][1..] == mappings[i + 1..];
      ProcessMapping(disk, net, mappings[i]);
    }
    assert mappings[|mappings|..] == [];
    var originalLines := CommaLines(FileLines(disk.Contents(INPUT_FILE)));
    var doneKeys := DoneKeys(FileLines(disk.Contents(SUCCESS_FILE)));
    var written := WriteUndone(originalLines, doneKeys);
    disk.Write(INPUT_FILE, written);
  }

  /** A mapping whose key has a line in the success log (a key without an
      arrow character) is not written back by the final rewrite. */
  lemma DoneKeyDropped(original: seq<string>, successLines: seq<string>, m: string, cdnPath: string)
    requires ',' in m
    requires '\U{2192}' !in SplitOnce(m, ',').value.0
    requires LogLine(SplitOnce(m, ',').value.0, cdnPath) in successLines
    ensures m + "\n" !in KeepUndone(original, DoneKeys(successLines))
  {
    var key := SplitOnce(m, ',').value.0;
    LogLineKey(key, cdnPath + "\n");
    assert key + ARROW + (cdnPath + "\n") == LogLine(key, cdnPath);
    assert key in DoneKeys(successLines);
    KeyBeforeComma(m);
    KeepUndoneMembers(original, DoneKeys(successLines), m + "\n");
    forall m' | m + "\n" == m' + "\n"
      ensures Before(m', ",") in DoneKeys(successLines)
    {
      assert |m'| == |m|;
      assert m' == (m' + "\n")[..|m'|];
      assert m == (m + "\n")[..|m|];
    }
  }
}
