/// How a tile of the cube-map pyramid is named on the CDN, shared by every
/// script that probes or downloads tiles.
module Tiles {
  import opened Text

  /** One tile: cube face (one letter), pyramid level, row and column, the
      last three counted from 1. */
  datatype TileId = TileId(face: string, level: int, row: int, col: int)

  /** The level directory name, "l{level}". */
  function LevelName(level: int): string {
    "l" + IntToString(level)
  }

  /** "l{level}_{face}_{row}_{col}.jpg". */
  function TileName(t: TileId): string {
    LevelName(t.level) + "_" + t.face + "_" + IntToString(t.row) + "_" + IntToString(t.col) + ".jpg"
  }

  /** "{base}/{path}/{face}/l{level}/{row}/l{level}_{face}_{row}_{col}.jpg". */
  function TileUrl(base: string, path: string, t: TileId): string {
    base + "/" + path + "/" + t.face + "/" + LevelName(t.level) + "/" + IntToString(t.row) + "/" + TileName(t)
  }

  /** "{base}/{path}/preview.jpg". */
  function PreviewUrl(base: string, path: string): string {
    base + "/" + path + "/preview.jpg"
  }
}
