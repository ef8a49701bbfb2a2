# Panorama tile crawler and viewer: a Dafny model

This project models the bookkeeping of a crawler that mirrors cube-map
panoramas from an image CDN, the stitcher that turns the tiles of a face
into one image, and the viewer's product routing and helpers. A panorama
item has a product key and a CDN path. Under that path it has a preview
image and, for each of the six cube faces, a pyramid of levels. Each level
is a grid of JPEG tiles named `l{level}_{face}_{row}_{col}.jpg`.

The model has one module per script, plus three shared modules:

- `Common`: attempts, networks, file-system state and retry budgets.
- `Text`: Python's string and file-line semantics.
- `Tiles`: tile names and URLs.

The scripts are modelled as follows:

- **Grid discovery** (`ClassifyTileType`). `get_structure` probes the tiles
  of face `b` level by level. It records `(level, rows, cols)` for every
  level whose first tile exists and stops at the first that does not.
  - The structure is encoded in a file name by `format_filename`. Each item
    is filed in the structure file its grid belongs to.
  - The scan is proved against an abstract oracle of which tiles exist.
    The model also bounds the number of probes.
- **Download plan and file-backed queue** (`DownloadTiles`). The structure
  is parsed back from the file name, and the parser is proved to invert
  `format_filename` for every structure.
  - For each item the preview is fetched first, then every tile of the plan:
    six faces × levels × rows × columns.
  - The structure file is used as a FIFO queue. A finished or malformed
    head line is dropped; a failing one stays and is retried in the next
    round.
- **Older scan-as-you-go downloader** (`LegacyDownload`).
  - It probes every level 1 .. 5 of every face and skips a level whose
    first tile is missing.
  - Within a level it stops at the first missing column and at the first
    empty row.
  - It logs each item in a success or error file and removes processed
    lines from the mapping file.
  - At the end it rewrites the mapping file against the success log.
- **Line-file filters** (`LineFiles`, `CheckImageExists`, `RetryErrorKeys`).
  - Lines are removed from a mapping or error file by rewriting every line
    whose stripped text differs from a key.
  - The existence check moves accepted lines from the mapping file to
    `has_image.txt`.
  - The retry loop passes over the error file until no key is left.
- **Face stitching** (`MergeTile`, `ImageProcessing`). Both scripts run the
  same `stitch_face` steps:
  - choose the highest level folder by string order;
  - read `(y, x)` from each image file name;
  - size the canvas;
  - paste every tile at `((x−1)·tw, (y−1)·th)`.
- **Viewer** (`Router`, `Viewer`).
  - `Router` covers the router's path cleaning, branch choice, current
    product and data-script loading with its one-time fallback.
  - `Viewer` covers the viewer's product key, tile URL template, HTML
    escaping and scene lookups.

The network is a parameter. It gives, for every URL, the outcome of each
successive attempt: raised, or a response with a status and a body. The
browser of the retry script is likewise a parameter: the CDN paths its
visits captured. The script's `while True` loops take one network (or
browser) per round, which is explicit fuel; they are not proved to
terminate. The file system is a `Disk` object with text files and binary
files. Concurrency (`asyncio.gather`) is modelled as sequential execution
in task order. The network holds one outcome sequence per URL, shared by
every request to that URL: two requests for the same URL in one item see
the same answers.

## Model

| member | source | states |
|---|---|---|
| Common.FirstOkMeaning | TestCrawl/download_image/2_download_tiles_from_mapping.py:35-46 | A retry loop that stops at the first 200 gives None exactly when none of the attempts in the budget got a 200. Otherwise it gives the body of the earliest attempt that did. |
| Common.Disk.Append | TestCrawl/download_image/1_classify_tile_type.py:72-73 | Opening in append mode and writing adds the text at the end of the file, creating a missing file. No other file changes. |
| Common.Disk.Write | TestCrawl/download_image/2_download_tiles_from_mapping.py:117-118 | Opening in write mode replaces the whole file and no other. |
| Common.Disk.WriteBlob | TestCrawl/download_image/2_download_tiles_from_mapping.py:58-59 | Writing a binary file sets that path's bytes and nothing else. |
| Text.StripMiddle | TestCrawl/download_image/2_download_tiles_from_mapping.py:96 | `strip()` keeps a contiguous middle of the text and drops only whitespace on either side. |
| Text.IntToStringParses | TestCrawl/download_image/2_download_tiles_from_mapping.py:23-25 | `int(str(n)) == n` for every integer, negative ones included. |
| Text.LetterIsNotInt | TestCrawl/download_image/2_download_tiles_from_mapping.py:28-29 | A text starting with a letter does not parse as an integer. This is the `ValueError` branch of the parser. |
| Text.SplitJoin | TestCrawl/download_image/2_download_tiles_from_mapping.py:17 | Splitting a `_`-join of pieces without `_` gives the pieces back. |
| Text.SplitOnce | TestCrawl/download_image/1_classify_tile_type.py:83 | `split(",", 1)` fails exactly when there is no comma. Otherwise the two parts rejoin to the line and the first holds no comma. |
| Text.FileLinesOfConcat | TestCrawl/mapping_key/4_check_image_exists.py:43-48 | Re-reading a file written as a sequence of whole lines gives those lines back. |
| Text.RenderReadBack | TestCrawl/download_image/2_download_tiles_from_mapping.py:107-109 | A queue file rewritten as the newline-joined lines reads back as the same lines. It ends in a newline exactly when it holds a line. |
| Text.Basename | TestCrawl/download_image/2_download_tiles_from_mapping.py:85 | `os.path.basename` is a suffix of the path with no slash. |
| ClassifyTileType.CheckUrl | TestCrawl/download_image/1_classify_tile_type.py:18-27 | The HEAD loop returns the answer of the first attempt that does not raise, and retries only attempts that raised. It makes at most `retries` attempts. |
| ClassifyTileType.CheckUrlMeaning | TestCrawl/download_image/1_classify_tile_type.py:18-27 | The answer is None exactly when `retries <= 0`. It is True exactly when a 200 follows only raised attempts within the budget. Otherwise it is False: a non-200 answer, or a budget spent on raises. |
| ClassifyTileType.CheckUrlFromMeaning | TestCrawl/download_image/1_classify_tile_type.py:19-27 | The same characterisation for the loop from any attempt on. |
| ClassifyTileType.AnchorIsFirstTile | TestCrawl/download_image/1_classify_tile_type.py:36-44 | The level probe asks about the same URL as tile (1, 1). |
| ClassifyTileType.ProbedUrlIsTileUrl | TestCrawl/download_image/1_classify_tile_type.py:31-44 | Every probed URL is the CDN URL of a tile of face `b`, in the layout the downloaders fetch. |
| ClassifyTileType.ProbeAnswers | TestCrawl/download_image/1_classify_tile_type.py:37-45 | The probe oracle built from the network answers every tile as `check_url` would. |
| ClassifyTileType.ScanRow | TestCrawl/download_image/1_classify_tile_type.py:42-48 | The column loop counts the run of present columns from 1, capped at MAX_COL. It makes at most one probe more than it counts. |
| ClassifyTileType.ScanLevel | TestCrawl/download_image/1_classify_tile_type.py:40-52 | The row loop gives the level's `(rows, cols)` as the scan specification defines them, within the row-probe budget. |
| ClassifyTileType.CheckAnchor | TestCrawl/download_image/1_classify_tile_type.py:36-38 | The anchor probe answers whether tile (level, 1, 1) is present. |
| ClassifyTileType.ScanLevelIfAnchored | TestCrawl/download_image/1_classify_tile_type.py:35-54 | One level round records the level's scan exactly when its anchor is present. A missing anchor costs exactly one probe. |
| ClassifyTileType.GetStructure | TestCrawl/download_image/1_classify_tile_type.py:29-55 | `get_structure` returns exactly the discovered structure. It probes only face `b`, levels 1 .. MAX_LEVEL, and at most ProbeBudget(structure) tiles. |
| ClassifyTileType.DiscoverLevels | TestCrawl/download_image/1_classify_tile_type.py:34-54 | There are at most MAX_LEVEL levels, numbered 1, 2, … consecutively, and each has its anchor present. When fewer than MAX_LEVEL levels are found, the next level's anchor is absent. |
| ClassifyTileType.AnchorRunMeaning | TestCrawl/download_image/1_classify_tile_type.py:34-38 | The recorded level count is the length of the run of present anchors, stopping at the first absent one. |
| ClassifyTileType.ColRunMeaning | TestCrawl/download_image/1_classify_tile_type.py:43-48 | A row's column count is the run of present columns from 1. The next column is absent unless the cap was reached. |
| ClassifyTileType.RowRunMeaning | TestCrawl/download_image/1_classify_tile_type.py:41-51 | `rows` is the longest run of rows from 1 whose column-1 tile is present. The next row's is absent unless MAX_ROW was reached. |
| ClassifyTileType.WidestMeaning | TestCrawl/download_image/1_classify_tile_type.py:52 | `cols` is the maximum of the rows' column counts, and some row attains it. |
| ClassifyTileType.RowProbesValue | TestCrawl/download_image/1_classify_tile_type.py:41-52 | A level's row scan makes at most rows·(cols+1)+1 probes. |
| ClassifyTileType.RecordedLevelsNonEmpty | TestCrawl/download_image/1_classify_tile_type.py:36-52 | Every recorded level has rows ≥ 1 and cols ≥ 1, because its anchor existed. |
| ClassifyTileType.DiscoverSingleLevel | TestCrawl/download_image/1_classify_tile_type.py:29-55 | Against a backend holding exactly a one-level grid with row widths `cols`, the result is `[(1, |cols|, max cols)]`. |
| ClassifyTileType.LevelParts | TestCrawl/download_image/1_classify_tile_type.py:59-60 | There is one `"{level}_{rows}_{cols}"` part per level. |
| ClassifyTileType.ProcessKey | TestCrawl/download_image/1_classify_tile_type.py:63-74 | An empty structure writes nothing. Otherwise exactly `"key,cdn\n"` is appended to `OUTPUT_DIR/format_filename(structure)` and no other file changes. |
| ClassifyTileType.JobsMeaning | TestCrawl/download_image/1_classify_tile_type.py:81-86 | Lines without a comma are skipped. Every other line becomes one job split at its first comma, so rejoining the jobs gives back exactly the comma lines. |
| ClassifyTileType.CollectJobs | TestCrawl/download_image/1_classify_tile_type.py:80-86 | The task loop produces exactly the jobs of the lines, in order. |
| ClassifyTileType.ProcessAll | TestCrawl/download_image/1_classify_tile_type.py:87 | The gathered tasks, run in order, leave the files as `process_key` on each job in turn. |
| ClassifyTileType.Run | TestCrawl/download_image/1_classify_tile_type.py:76-87 | `main` fails without `has_image.txt` and changes nothing. Otherwise it processes the jobs of the file's non-blank stripped lines. |
| DownloadTiles.TripleAt | TestCrawl/download_image/2_download_tiles_from_mapping.py:21-26 | A triple is read at part i only when part i starts with `l` and two parts follow. |
| DownloadTiles.ParseFrom | TestCrawl/download_image/2_download_tiles_from_mapping.py:20-31 | The loop reads at most one level per three parts. |
| DownloadTiles.ParseStructureFromFilename | TestCrawl/download_image/2_download_tiles_from_mapping.py:16-32 | The `while` loop never raises and always terminates. It returns the parse of the name, with at most one level per three parts. |
| DownloadTiles.IntHasNoSeparator | TestCrawl/download_image/1_classify_tile_type.py:60 | A decimal integer holds neither `_` nor `.`, so a level part splits into exactly its three fields. |
| DownloadTiles.TripleOfFields | TestCrawl/download_image/2_download_tiles_from_mapping.py:23-26 | The fields of a level, `l{n}`, rows and cols, parse back to that level. |
| DownloadTiles.PartsOfFormat | TestCrawl/download_image/2_download_tiles_from_mapping.py:17 | The parts of a formatted name are the level count `l{N}` followed by every level's three fields. |
| DownloadTiles.CountSkipped | TestCrawl/download_image/2_download_tiles_from_mapping.py:20-31 | The leading `l{N}` never starts a triple: the next part starts with `l` or is absent. It is therefore skipped by one. |
| DownloadTiles.FormatThenParse | TestCrawl/download_image/2_download_tiles_from_mapping.py:16-32 | `parse_structure_from_filename(format_filename(s)) == s` for every structure of integer triples. |
| DownloadTiles.SubfolderIsStem | TestCrawl/download_image/2_download_tiles_from_mapping.py:87 | The subfolder name is the formatted name without `.txt`. |
| DownloadTiles.Fetch | TestCrawl/download_image/2_download_tiles_from_mapping.py:34-46 | At most MAX_RETRY attempts are made, retrying on raises and on non-200 alike. The result is the body of the first 200, or None after the whole budget. |
| DownloadTiles.RowTiles | TestCrawl/download_image/2_download_tiles_from_mapping.py:78-79 | A row contributes max(cols, 0) tasks. |
| DownloadTiles.BuildPlan | TestCrawl/download_image/2_download_tiles_from_mapping.py:75-79 | The nested loops build exactly Plan(levels) in creation order. |
| DownloadTiles.PlanRow | TestCrawl/download_image/2_download_tiles_from_mapping.py:78-79 | The column loop appends the row's tiles. |
| DownloadTiles.PlanLevel | TestCrawl/download_image/2_download_tiles_from_mapping.py:77-79 | The row loop appends rows 1 .. rows of the level. |
| DownloadTiles.PlanFace | TestCrawl/download_image/2_download_tiles_from_mapping.py:76-79 | The level loop appends every level of the face. |
| DownloadTiles.PlanMembers | TestCrawl/download_image/2_download_tiles_from_mapping.py:75-79 | A tile is in the plan if and only if its face is one of the six and it lies inside a listed level: row 1 .. rows and column 1 .. cols. |
| DownloadTiles.PlanSize | TestCrawl/download_image/2_download_tiles_from_mapping.py:75-79 | The plan has 6·Σ rows·cols tasks. |
| DownloadTiles.TileUrls | TestCrawl/download_image/2_download_tiles_from_mapping.py:65 | There is one URL per task. |
| DownloadTiles.DownloadTile | TestCrawl/download_image/2_download_tiles_from_mapping.py:63-73 | The tile URL is `{BASE}/{path}/{face}/l{lv}/{r}/l{lv}_{face}_{r}_{c}.jpg`. The task succeeds exactly when a non-empty body came back, and only then is the tile saved at its path. |
| DownloadTiles.GatherTiles | TestCrawl/download_image/2_download_tiles_from_mapping.py:81-82 | All tasks run. The result is true exactly when every tile came back, and exactly the fetched tiles are saved. |
| DownloadTiles.DownloadImagesForProduct | TestCrawl/download_image/2_download_tiles_from_mapping.py:48-82 | The item succeeds exactly when the preview and every planned tile came back. The URLs fetched are the preview's, then the plan's when the preview came back. |
| DownloadTiles.PreviewFailureStopsItem | TestCrawl/download_image/2_download_tiles_from_mapping.py:53-56 | A falsy preview (None or an empty body) fails the item. Nothing but the preview is fetched and no file is saved. |
| DownloadTiles.SaveTilesKeeps | TestCrawl/download_image/2_download_tiles_from_mapping.py:71-72 | Saving tiles keeps every file already present. |
| DownloadTiles.SaveTilesAdds | TestCrawl/download_image/2_download_tiles_from_mapping.py:66-72 | Every tile that came back is saved at its path. |
| DownloadTiles.SaveTilesOnlyTiles | TestCrawl/download_image/2_download_tiles_from_mapping.py:69-72 | No path other than a planned tile's path is added. |
| DownloadTiles.SaveTilesAll | TestCrawl/download_image/2_download_tiles_from_mapping.py:81-82 | When every tile came back, every planned tile's path is saved. |
| DownloadTiles.ItemSaved | TestCrawl/download_image/2_download_tiles_from_mapping.py:58-82 | After a successful item the preview and every planned tile are on disk. |
| DownloadTiles.TileSavedAt | TestCrawl/download_image/2_download_tiles_from_mapping.py:49-71 | A tile is saved at `OUTPUT_DIR/subfolder/key/{face}/l{lv}/{r}/l{lv}_{face}_{r}_{c}.jpg`. |
| DownloadTiles.ProcessHead | TestCrawl/download_image/2_download_tiles_from_mapping.py:90-121 | One loop round exits exactly as the queue-step specification says and otherwise changes the files as it says. |
| DownloadTiles.ProcessFile | TestCrawl/download_image/2_download_tiles_from_mapping.py:84-121 | `process_file` parses the structure from the base name, then runs the rounds. The files and the finished flag are those of QueueRun. |
| DownloadTiles.QueueStepMeaning | TestCrawl/download_image/2_download_tiles_from_mapping.py:92-121 | The loop exits exactly when the file is missing or has no non-blank line. A head without a comma is dropped with no download, and a successful head is dropped. After a failure the text files are unchanged. A rewrite reads back as the rest of the lines and ends in a newline exactly when it is non-empty. |
| DownloadTiles.FailingHeadStays | TestCrawl/download_image/2_download_tiles_from_mapping.py:112-121 | A head whose item fails in every round is never dropped, and the loop never finishes: there is no retry ceiling. |
| DownloadTiles.QueueRunFinished | TestCrawl/download_image/2_download_tiles_from_mapping.py:90-100 | When the loop finishes, the file is missing or holds no non-blank line. |
| LegacyDownload.DownloadWithRetry | TestCrawl/download_tiles_from_mapping.py:23-31 | At most MAX_RETRY attempts are made, and exceptions are swallowed. The result is the first 200 body, or None. |
| LegacyDownload.StripKeepsComma | TestCrawl/download_tiles_from_mapping.py:35 | A line holding a comma still holds one after `strip()`. |
| LegacyDownload.CommaLines | TestCrawl/download_tiles_from_mapping.py:34-35 | Every mapping read holds a comma and is stripped. |
| LegacyDownload.CommaLinesMembers | TestCrawl/download_tiles_from_mapping.py:34-35 | The mappings are exactly the stripped lines that contain a comma. |
| LegacyDownload.KeyBeforeComma | TestCrawl/download_tiles_from_mapping.py:110 | The key taken by `split(",", 1)[0]` is the one `split(",", 1)` unpacks: the text before the first comma. |
| LegacyDownload.LogLineKey | TestCrawl/download_tiles_from_mapping.py:92-106 | The key read back from a log line `"key → path"` is the key, for a key without an arrow. |
| LegacyDownload.DoneKeys | TestCrawl/download_tiles_from_mapping.py:105-106 | The prefix before `" → "` of every success-log line is a done key. |
| LegacyDownload.KeepUndoneMembers | TestCrawl/download_tiles_from_mapping.py:108-112 | The final rewrite writes exactly `m + "\n"` for the mappings m whose key is not done. |
| LegacyDownload.KeepUndoneAppend | TestCrawl/download_tiles_from_mapping.py:109-112 | The final rewrite keeps the file's order. |
| LegacyDownload.RemoveKeyMembers | TestCrawl/download_tiles_from_mapping.py:95-96 | Removal drops exactly the lines that start with `"key,"`, duplicates included. All others stay. |
| LegacyDownload.RemoveKeyAppend | TestCrawl/download_tiles_from_mapping.py:96 | Removal keeps the other lines in order. |
| LegacyDownload.RemoveKeyIdempotent | TestCrawl/download_tiles_from_mapping.py:95-99 | Removing the same key twice removes nothing more. |
| LegacyDownload.RemoveKeyReadBack | TestCrawl/download_tiles_from_mapping.py:98-99 | The rewritten mapping file reads back as the kept lines. |
| LegacyDownload.ProbeAnswers | TestCrawl/download_tiles_from_mapping.py:65-74 | The tile oracle built from the network answers as `download_with_retry` followed by the `if content` test. |
| LegacyDownload.ColTilesMembers | TestCrawl/download_tiles_from_mapping.py:71-86 | A row saves exactly the run of present columns from column 1, at most MAX_COL. |
| LegacyDownload.LevelTilesMembers | TestCrawl/download_tiles_from_mapping.py:64-88 | A level saves exactly the tiles reached by the row loop. That loop stops after the first row that saves nothing, or at MAX_ROW. |
| LegacyDownload.LevelsFromMembers | TestCrawl/download_tiles_from_mapping.py:62-66 | Every level 1 .. 5 is tried. One with a missing anchor contributes nothing, and higher levels are still tried. |
| LegacyDownload.ItemTilesMembers | TestCrawl/download_tiles_from_mapping.py:61-88 | The scan of an item saves exactly the tiles of the six faces, of levels 1 .. 5 with their anchor present, reached by the row and column loops. |
| LegacyDownload.MissingAnchorSkipsLevel | TestCrawl/download_tiles_from_mapping.py:64-66 | A level whose anchor tile is missing contributes no tile. |
| LegacyDownload.StoreTouchesOnlyTiles | TestCrawl/download_tiles_from_mapping.py:77-82 | Saving adds exactly the saved tiles' paths and leaves every other image as it was. |
| LegacyDownload.AnchorIsFirstTile | TestCrawl/download_tiles_from_mapping.py:64-73 | The anchor URL is the URL of tile (1, 1). |
| LegacyDownload.ScanRow | TestCrawl/download_tiles_from_mapping.py:70-86 | `found_in_row` is true exactly when the row saved a tile, and the images gained are the row's tiles. |
| LegacyDownload.ScanLevel | TestCrawl/download_tiles_from_mapping.py:69-88 | The row loop saves the level's reached tiles. |
| LegacyDownload.ScanLevelIfAnchored | TestCrawl/download_tiles_from_mapping.py:63-88 | One level round saves the level's tiles, and nothing when the anchor is missing. |
| LegacyDownload.ScanFace | TestCrawl/download_tiles_from_mapping.py:62-88 | The level loop of a face saves the tiles of levels 1 .. 5. |
| LegacyDownload.ScanFaces | TestCrawl/download_tiles_from_mapping.py:61-88 | The face loop saves each face's tiles in face order. |
| LegacyDownload.ScanItem | TestCrawl/download_tiles_from_mapping.py:61-88 | The scan of an item saves exactly ItemTiles and touches no text file. |
| LegacyDownload.ProcessMapping | TestCrawl/download_tiles_from_mapping.py:39-99 | One mapping changes the files exactly as MappingEffect says. |
| LegacyDownload.PreviewFailureOnlyLogs | TestCrawl/download_tiles_from_mapping.py:48-54 | On preview failure, `"key → path\n"` is appended to the error file. No image is saved, and the mapping line stays in the input. |
| LegacyDownload.DoneTextLogs | TestCrawl/download_tiles_from_mapping.py:90-92 | After a preview that came back, the success line is appended whatever the tile scan found. The error file is untouched. |
| LegacyDownload.DoneTextRemovesKey | TestCrawl/download_tiles_from_mapping.py:94-99 | After a preview that came back, the mapping file reads back without the lines starting with `"key,"`. |
| LegacyDownload.ItemImagesGrow | TestCrawl/download_tiles_from_mapping.py:56-88 | After a preview that came back, the images gain the preview and every tile the scan reached, and lose nothing. |
| LegacyDownload.CreateLogs | TestCrawl/download_tiles_from_mapping.py:19-21 | Afterwards the two logs exist, every existing file is kept, and no other file is created. |
| LegacyDownload.CreateLogsKeeps | TestCrawl/download_tiles_from_mapping.py:20 | An existing log is not truncated. |
| LegacyDownload.CreateMissingLogs | TestCrawl/download_tiles_from_mapping.py:18-21 | The loop creates the missing logs as CreateLogs says. |
| LegacyDownload.WriteUndone | TestCrawl/download_tiles_from_mapping.py:108-112 | The final loop writes exactly the undone mappings, each with a newline. |
| LegacyDownload.Run | TestCrawl/download_tiles_from_mapping.py:18-112 | The script fails exactly when the mapping file is missing. The files end as RunEffect says: logs created, each mapping processed, then the final reconciliation. |
| LegacyDownload.DoneKeyDropped | TestCrawl/download_tiles_from_mapping.py:103-112 | A mapping whose key has a success-log line is not written back by the final rewrite. |
| LineFiles.KeepLinesMembers | TestCrawl/mapping_key/retry_fetch_error_keys.py:18-20 | The rewrite keeps exactly the accepted lines, duplicates included. |
| LineFiles.KeepLinesAppend | TestCrawl/mapping_key/retry_fetch_error_keys.py:18-20 | The kept lines stay in file order. |
| LineFiles.KeepLinesIdempotent | TestCrawl/mapping_key/retry_fetch_error_keys.py:15-20 | Filtering twice with the same test removes nothing more. |
| LineFiles.KeepLinesReadBack | TestCrawl/mapping_key/retry_fetch_error_keys.py:15-20 | The rewritten file reads back as exactly the kept lines. |
| LineFiles.DropStrippedMembers | TestCrawl/mapping_key/retry_fetch_error_keys.py:18-20 | Exactly the lines whose stripped text is the key are removed. Every other line stays unchanged. |
| LineFiles.DropFromTextKeys | TestCrawl/mapping_key/retry_fetch_error_keys.py:12-20 | After the removal the file lists exactly the keys it listed before, minus the removed one. |
| LineFiles.DropFromFileMeaning | TestCrawl/mapping_key/4_check_image_exists.py:42-48 | The removal rewrites only that file, keeps its existence, and keeps exactly the lines not stripping to the text. |
| LineFiles.DropFromFileIdempotent | TestCrawl/mapping_key/retry_fetch_error_keys.py:12-20 | The removal is idempotent, and a missing file is left missing. |
| LineFiles.WriteKept | TestCrawl/mapping_key/retry_fetch_error_keys.py:17-20 | The write loop writes exactly the kept lines, in order. |
| LineFiles.RemoveStrippedLines | TestCrawl/mapping_key/retry_fetch_error_keys.py:12-20 | Read, filter and rewrite the file, or do nothing when it is missing. |
| CheckImageExists.CheckImageExists | TestCrawl/mapping_key/4_check_image_exists.py:14-22 | The result is true if and only if one of the first MAX_RETRY attempts got a 200. |
| CheckImageExists.AnchorUrl | TestCrawl/mapping_key/4_check_image_exists.py:31 | The second probed URL is the CDN URL of tile `b`, level 1, row 1, column 1. |
| CheckImageExists.LineEffectMeaning | TestCrawl/mapping_key/4_check_image_exists.py:24-55 | A blank line changes nothing. A non-blank line without a comma raises. A line with a comma changes the files exactly when both the preview and the first tile exist. |
| CheckImageExists.AcceptEffectMeaning | TestCrawl/mapping_key/4_check_image_exists.py:39-48 | On accept the line plus a newline is appended to the output. Every mapping line whose stripped text equals it is removed, and all other lines and files stay as they were. |
| CheckImageExists.ProcessLine | TestCrawl/mapping_key/4_check_image_exists.py:24-55 | `process_line` changes the files as LineEffect says, and reports the raise. |
| CheckImageExists.LineEffectShape | TestCrawl/mapping_key/4_check_image_exists.py:37-55 | A line either leaves the files alone (reject) or has the accept effect. |
| CheckImageExists.LinesRaiseIff | TestCrawl/mapping_key/4_check_image_exists.py:29 | A run raises if and only if some line read is non-blank and has no comma. |
| CheckImageExists.LinesOutputGrows | TestCrawl/mapping_key/4_check_image_exists.py:40-41 | The output file is only ever appended to. |
| CheckImageExists.LinesOnlyRemove | TestCrawl/mapping_key/4_check_image_exists.py:42-48 | The mapping file never gains a line, and no other file is touched. |
| CheckImageExists.Run | TestCrawl/mapping_key/4_check_image_exists.py:57-68 | Without a mapping file nothing happens. Otherwise the lines read at the start are processed in order until a raise. |
| RetryErrorKeys.FirstCaptureMeaning | TestCrawl/mapping_key/retry_fetch_error_keys.py:27-58 | The visit loop gives up exactly when none of its MAX_RETRY visits captured a path. Otherwise it reports the earliest capture. |
| RetryErrorKeys.HandleEffectMeaning | TestCrawl/mapping_key/retry_fetch_error_keys.py:49-58 | A found key appends its line and leaves the error file, whose other keys stay. A key not found changes nothing, and no other file is touched. |
| RetryErrorKeys.HandleOutput | TestCrawl/mapping_key/retry_fetch_error_keys.py:52-53 | A found key appends exactly `"key,cdn\n"`, and a missing key appends nothing. |
| RetryErrorKeys.RemoveKeyFromErrorFile | TestCrawl/mapping_key/retry_fetch_error_keys.py:12-20 | Lines stripping to the key are removed from the error file. A missing file stays missing. |
| RetryErrorKeys.FetchAndHandle | TestCrawl/mapping_key/retry_fetch_error_keys.py:22-58 | The result is true exactly when a visit captured a path. Then the line is appended to the mapping file before the key is removed from the error file. |
| RetryErrorKeys.PassKeys | TestCrawl/mapping_key/retry_fetch_error_keys.py:82 | After a pass the error file lists exactly its earlier keys minus the handled keys that were found. |
| RetryErrorKeys.PassOutput | TestCrawl/mapping_key/retry_fetch_error_keys.py:82 | A pass appends the found keys' lines, in key order. |
| RetryErrorKeys.PassKeepsOthers | TestCrawl/mapping_key/retry_fetch_error_keys.py:82 | A pass touches no other file. |
| RetryErrorKeys.RunPass | TestCrawl/mapping_key/retry_fetch_error_keys.py:82 | The gather of one pass leaves the files as PassEffect says. |
| RetryErrorKeys.RetryEffectMeaning | TestCrawl/mapping_key/retry_fetch_error_keys.py:68-82 | The loop stops by itself only when the error file is missing or lists no key. A pass never adds a key to the error file. |
| RetryErrorKeys.AllFoundFinishes | TestCrawl/mapping_key/retry_fetch_error_keys.py:68-82 | A pass in which every key is found ends the loop. |
| RetryErrorKeys.RetryErrors | TestCrawl/mapping_key/retry_fetch_error_keys.py:60-84 | The pass loop leaves the files as RetryEffect says, re-reading the keys each pass. |
| MergeTile.LexLeTotal | TestPano/merge_tile.py:11 | Python's string order is total. |
| MergeTile.LexLeTransitive | TestPano/merge_tile.py:11 | Python's string order is transitive. |
| MergeTile.LexLeAntisymmetric | TestPano/merge_tile.py:11 | Python's string order is antisymmetric. |
| MergeTile.MaxName | TestPano/merge_tile.py:11-12 | The chosen level is a folder name that no other folder name exceeds under string order. |
| MergeTile.MaxNameUnique | TestPano/merge_tile.py:11-12 | The last element of the sorted list is the one greatest name. |
| MergeTile.NineBeatsTen | TestPano/merge_tile.py:11-12 | `"l9"` is chosen over `"l10"`. |
| MergeTile.RFind | TestPano/merge_tile.py:20 | `rfind` gives the last occurrence, or −1. |
| MergeTile.Stem | TestPano/merge_tile.py:20 | `splitext(...)[0]` is a prefix of the name. |
| MergeTile.DigitFields | TestPano/merge_tile.py:22 | The kept fields are all digits. |
| MergeTile.TileCoordOfTileName | TestPano/merge_tile.py:20-24 | A crawler tile file `l{lv}_{face}_{r}_{c}.jpg` is read as `(y, x) = (r, c)`. |
| MergeTile.UpperCaseJpgIsImage | TestPano/merge_tile.py:19 | The extension test ignores case. |
| MergeTile.Insert | TestPano/merge_tile.py:25 | A dict store sets the key, keeps every other key and value, and appends a new key to the insertion order. |
| MergeTile.AddEntryDomain | TestPano/merge_tile.py:19-25 | One file adds exactly the coordinate its name gives, if any. |
| MergeTile.CollectKeys | TestPano/merge_tile.py:17-25 | A coordinate is a key if and only if some image file of the walk gives it. |
| MergeTile.CollectLastWins | TestPano/merge_tile.py:25 | A later file with the same `(y, x)` overwrites an earlier one. |
| MergeTile.CollectNone | TestPano/merge_tile.py:23 | Files with fewer than two digit fields, or other extensions, are ignored. |
| MergeTile.CollectFirstKey | TestPano/merge_tile.py:32 | The sample tile is the first file that gave a coordinate. |
| MergeTile.CollectEmptyIff | TestPano/merge_tile.py:27-30 | The tile map is empty exactly when no file gives a coordinate. That is the case where `max` raises. |
| MergeTile.CollectFolder | TestPano/merge_tile.py:18-25 | The inner loop adds the folder's files in order. |
| MergeTile.CollectTiles | TestPano/merge_tile.py:16-25 | The walk loop builds exactly the map of the walk's files. |
| MergeTile.MaxOf | TestPano/merge_tile.py:29-30 | `max` is an element that bounds all the others. |
| MergeTile.Canvas.Paste | TestPano/merge_tile.py:39 | A paste records the tile and its corner and does not resize the canvas. |
| MergeTile.Layout | TestPano/merge_tile.py:37-39 | There is one paste per tile. |
| MergeTile.LayoutDisjoint | TestPano/merge_tile.py:37-39 | Tiles at distinct `(y, x)` get non-overlapping `tw×th` rectangles. |
| MergeTile.LayoutInside | TestPano/merge_tile.py:27-39 | A tile with `y, x ≥ 1` lies inside the `max_col·tw × max_row·th` canvas. |
| MergeTile.ColumnZeroOutside | TestPano/merge_tile.py:39 | A tile numbered from column 0 is pasted one tile left of the canvas. |
| MergeTile.PasteTiles | TestPano/merge_tile.py:37-39 | The paste loop pastes every tile at `((x−1)·tw, (y−1)·th)`, in insertion order. |
| MergeTile.StitchFace | TestPano/merge_tile.py:4-44 | No level folders gives the ValueError, and an empty tile map gives the `max` error. Otherwise the canvas is `max_col·tw × max_row·th` with the layout's pastes, saved as `./cube_faces/{face}.jpg`. |
| ImageProcessing.StitchFace | TestPano/image_processing.py:4-42 | The same outcome as the stand-alone stitcher: the same errors, canvas size, pastes and output name. |
| Router.CleanPath | Panorama_Demo_Version_1/app-files/router.js:51 | At most one leading and one trailing `/` are removed and nothing else. The rest of the path is copied unchanged. |
| Router.ChooseRoute | Panorama_Demo_Version_1/app-files/router.js:51-81 | A path naming a product redirects to `/?product=key`, and only then. A valid parameter, or no parameter (the default), shows a product. An unknown parameter shows nothing. |
| Router.GetCurrentProduct | Panorama_Demo_Version_1/app-files/router.js:88-98 | The result is the parameter if and only if it names a known product, else the first product. It is always a list member. |
| Router.RouteAgreesWithCurrentProduct | Panorama_Demo_Version_1/app-files/router.js:61-98 | When the router shows a product, it is getCurrentProduct's. For an unknown product it shows nothing, while getCurrentProduct names the default. |
| Router.DataScript | Panorama_Demo_Version_1/app-files/router.js:109-111 | The script has id `product-data-script` and source `data/{key}.js`. |
| Router.FirstWithId | Panorama_Demo_Version_1/app-files/router.js:103 | `getElementById` gives the first element with the id, or none. |
| Router.DataScriptsRemove | Panorama_Demo_Version_1/app-files/router.js:104-106 | Removing the found data script leaves one fewer. |
| Router.Page.AttachDataScript | Panorama_Demo_Version_1/app-files/router.js:103-125 | Any existing data script is removed before the new one is appended, so exactly one data script remains. A load fires the data-loaded event. |
| Router.Page.LoadProductData | Panorama_Demo_Version_1/app-files/router.js:101-126 | A failing product that is not the default falls back to the default once. A failing default is not retried. Exactly one data script is left. |
| Router.Page.UpdateProductSelector | Panorama_Demo_Version_1/app-files/router.js:129-134 | Only a page with a selector changes, and then it selects the key. |
| Router.Page.InitRouter | Panorama_Demo_Version_1/app-files/router.js:46-85 | A redirect changes only the address and loads nothing. Showing a key stores it, loads its data (with fallback), selects it and wires the selector. Showing nothing only wires the selector. |
| Viewer.GetProductKey | Panorama_Demo_Version_1/app-files/index.js:27-42 | With the router loaded the result is a known product. Without it, the unvalidated parameter, or `1a5ab6424adfa1e1`. |
| Viewer.ProductKeyAgrees | Panorama_Demo_Version_1/app-files/index.js:27-42 | For a known product or no parameter, both branches give the same key. The fallback equals the router's first product. |
| Viewer.ProductKeyUnvalidated | Panorama_Demo_Version_1/app-files/index.js:34-38 | Without the router an unknown product is shown as asked. The router would show the default. |
| Viewer.TileTemplate | Panorama_Demo_Version_1/app-files/index.js:118-120 | Tile URLs lie under `product-tiles/<key>/` and end in the `/tile/{z}/{f}/{y}/{x}.jpg` pattern Marzipano fills in, with the key as the only varying part. |
| Viewer.PreviewImage | Panorama_Demo_Version_1/app-files/index.js:118-121 | The preview lies under `product-tiles/<key>/` and ends in `/preview.jpg`, with the key as the only varying part. |
| Viewer.TemplatesApart | Panorama_Demo_Version_1/app-files/index.js:118-121 | Distinct products never share a tile template or a preview. |
| Viewer.SanitizeIsEscapeEach | Panorama_Demo_Version_1/app-files/index.js:262-264 | The three global replaces, `&` first, equal escaping each character once. |
| Viewer.SanitizeNoBrackets | Panorama_Demo_Version_1/app-files/index.js:262-264 | The output holds no `<` or `>`. |
| Viewer.SanitizeLength | Panorama_Demo_Version_1/app-files/index.js:262-264 | The output length is n + 4·#`&` + 3·#`<` + 3·#`>`. |
| Viewer.SanitizeKeepsOthers | Panorama_Demo_Version_1/app-files/index.js:262-264 | Every other character is copied unchanged at its shifted place. |
| Viewer.SanitizeAppend | Panorama_Demo_Version_1/app-files/index.js:262-264 | Escaping distributes over concatenation. |
| Viewer.SanitizeTwice | Panorama_Demo_Version_1/app-files/index.js:262-264 | Escaping twice equals escaping once if and only if the text holds no `&`, `<` or `>`: the function is not idempotent. |
| Viewer.AmpersandTwice | Panorama_Demo_Version_1/app-files/index.js:262-264 | `&` escapes to `&amp;`, and escaping that again changes it once more. |
| Viewer.FindSceneById | Panorama_Demo_Version_1/app-files/index.js:464-471 | The result is the first scene whose data id matches, or null if and only if none matches. |
| Viewer.FindSceneDataById | Panorama_Demo_Version_1/app-files/index.js:473-483 | The result is null without data or without a scene list. Otherwise it is the first matching scene data, or null if and only if none matches. |

## Left out

- Concurrency: semaphores, locks and `asyncio.gather` are modelled as sequential execution in task order. Interleavings of concurrent rewrites of the same file are not modelled.
- Sleeps, timeouts and progress printing have no effect on the files and are not modelled. A timeout is an attempt that raised.
- The HTTP client, the browser (Playwright) and the image library are outside the model. The network and the browser's captures are parameters, and pixels are not modelled: a canvas has a size and a list of pastes.
- Crash atomicity: every rewrite is modelled as a whole-file replace, which is what opening a file with `"w"` does. The code has no temp-file-and-rename scheme, so none is modelled.
- An item whose grid is empty is only printed (`1_classify_tile_type.py:67-69`). The code keeps no error list for such items, so none is modelled.
- ClassifyTileType.CheckUrl: `check_url` returns on the first answer that does not raise, so a 404 is not retried. The model follows the code.
- ClassifyTileType.ScanLevelIfAnchored, ClassifyTileType.RecordedLevelsNonEmpty and LegacyDownload.ScanLevelIfAnchored: the network holds one outcome sequence per URL, shared by every request to it. A second probe of the same tile therefore always agrees with the first. The source probes tile (1, 1) twice: at `1_classify_tile_type.py:37` and `:45`, and at `download_tiles_from_mapping.py:65` and `:74`. On a CDN that answers the two requests differently, the program can record a level with no rows or columns, or skip a level whose anchor answered. The model cannot represent either outcome.
- CheckImageExists.Run: under the real `asyncio.gather`, the `ValueError` of a malformed line cancels the tasks still running. The accept-and-remove effects of the other lines, which the model applies in order before the raise, are generally not all reached. Which of them complete depends on scheduling and is not modelled.
- Text.FileLines: Python's text-mode reading turns `"\r\n"` and a lone `"\r"` into `"\n"`. The model cuts lines only at `'\n'` and keeps any `'\r'`. For files with CRLF or CR line ends, every rewrite of raw lines therefore writes different bytes than the program: LegacyDownload.RemoveKey, LegacyDownload.ProcessMapping, LineFiles.WriteKept and the DownloadTiles queue rewrite. A file with CR-only line ends is one line in the model but several lines in the program.
- RetryErrorKeys.PassKeys, RetryErrorKeys.PassOutput, RetryErrorKeys.RunPass: within one pass the browser gives one capture sequence per key. Copies of one key in the error file (`retry_fetch_error_keys.py:74` strips the lines but does not deduplicate them) therefore share their captures. In the program each copy has its own task and its own page visits (`:26-58`, `:82`), so one copy can find a path while another does not. The program then appends one line per copy that found a path, and removes the key if any copy did. The model cannot represent copies that end differently. This also holds for RetryErrorKeys.RetryEffect and RetryErrorKeys.RetryErrors, which are built from passes.
- Text.ParseInt: `int()` is modelled on ASCII digits. Python's `int()` also accepts other Unicode decimal digits; those are not modelled.
- The `main` of `2_download_tiles_from_mapping.py` (listing the structure folder and sorting it) is not modelled. ProcessFile models the per-file work.
- ClassifyTileType.GetStructure: a level records its number n where the source keeps the string `"l{n}"`. The file name uses `LevelName(n)`, so the encoded names are the same.
- The retry loops' `while True` are given explicit fuel: one network or browser per round. The model does not say what happens after the last round it is given.
- MergeTile.IsImageFile and MergeTile.IsDigits: `lower()` and `isdigit()` are modelled on ASCII. Unicode case folding and non-ASCII digits are not modelled.
- MergeTile.StitchFace: the level folders, the walk of a folder and the sample tile's size are parameters. `os.listdir` order, `os.walk` order and image decoding are not modelled.
- `rotate_faces` and `flip_faces` in `image_processing.py` are image-library calls and are not modelled.
- The viewer's DOM, Marzipano, screenfull and localStorage code is not modelled: event handlers, autorotate and the float view limits. Only the page state the router reads and writes is kept.
- The `data/*.js` files are configuration objects with no logic and are not modelled.
- Router.Page.LoadProductData: the load outcome of each product is a fixed parameter for one page view, and the onload/onerror callbacks are taken to run at once.
- `crawl_script.py`, `last_check_error.py`, `classify_script.py`, `convert_cube_to_equi.py` and `route_image.py` are not part of this model.
