/// Stitching the tiles of one cube face into a single image: pick the
/// highest level folder, read (row, column) from every image file name under
/// it, size a canvas to the largest row and column, and paste every tile at
/// the offset its position gives. Pixels are not modelled: a canvas records
/// its size and where each tile file was pasted.
module MergeTile {
  import opened Common
  import opened Text
  import opened Tiles

  // ---------------------------------------------------------------------
  // choosing the level
  // ---------------------------------------------------------------------

  /** Python's a <= b on strings: code point by code point, a proper prefix
      first. */
  predicate LexLe(a: string, b: string)
    decreases |a|
  {
    a == [] || (b != [] && (a[0] < b[0] || (a[0] == b[0] && LexLe(a[1..], b[1..]))))
  }

  lemma {:induction false} LexLeReflexive(a: string)
    ensures LexLe(a, a)
    decreases |a|
  {
    if a != [] {
      LexLeReflexive(a[1..]);
    }
  }

  lemma {:induction false} LexLeTotal(a: string, b: string)
    ensures LexLe(a, b) || LexLe(b, a)
    decreases |a|
  {
    if a != [] && b != [] && a[0] == b[0] {
      LexLeTotal(a[1..], b[1..]);
    }
  }

  lemma {:induction false} LexLeTransitive(a: string, b: string, c: string)
    requires LexLe(a, b) && LexLe(b, c)
    ensures LexLe(a, c)
    decreases |a|
  {
    if a != [] && a[0] == b[0] && b[0] == c[0] {
      LexLeTransitive(a[1..], b[1..], c[1..]);
    }
  }

  lemma {:induction false} LexLeAntisymmetric(a: string, b: string)
    requires LexLe(a, b) && LexLe(b, a)
    ensures a == b
    decreases |a|
  {
    if a != [] {
      LexLeAntisymmetric(a[1..], b[1..]);
      assert a == [a[0]] + a[1..] && b == [b[0]] + b[1..];
    }
  }

  /** `levels.sort(); levels[-1]`: the greatest name under string order. */
  function MaxName(levels: seq<string>): (top: string)
    requires levels != []
    ensures top in levels
    ensures forall l :: l in levels ==> LexLe(l, top)
    decreases |levels|
  {
    if |levels| == 1 then
      LexLeReflexive(levels[0]);
      levels[0]
    else
      var rest := MaxName(levels[1..]);
      MaxNameStep(levels, rest);
      if LexLe(levels[0], rest) then rest else levels[0]
  }

  lemma MaxNameStep(levels: seq<string>, rest: string)
    requires |levels| >= 2 && rest in levels[1..]
    requires forall l :: l in levels[1..] ==> LexLe(l, rest)
    ensures forall l :: l in levels ==> LexLe(l, if LexLe(levels[0], rest) then rest else levels[0])
  {
    assert forall l :: l in levels ==> l == levels[0] || l in levels[1..];
    if !LexLe(levels[0], rest) {
      LexLeReflexive(levels[0]);
      LexLeTotal(levels[0], rest);
      forall l | l in levels[1..] ensures LexLe(l, levels[0]) {
        LexLeTransitive(l, rest, levels[0]);
      }
    }
  }

  /** The last element of the sorted list is the one name that no other name
      exceeds: MaxName is it, whatever the listing order. */
  lemma MaxNameUnique(levels: seq<string>, top: string)
    requires top in levels && forall l :: l in levels ==> LexLe(l, top)
    ensures levels != [] && MaxName(levels) == top
  {
    LexLeAntisymmetric(top, MaxName(levels));
  }

  /** String order is not numeric order: level folder l9 is preferred to l10. */
  lemma NineBeatsTen()
    ensures MaxName(["l9", "l10"]) == "l9"
  {
    assert LexLe("l10", "l9");
    assert !LexLe("l9", "l10");
  }

  // ---------------------------------------------------------------------
  // reading a tile position from a file name
  // ---------------------------------------------------------------------

  /** str.rfind(c): the last index of c, or -1. */
  function RFind(s: string, c: char): (i: int)
    ensures -1 <= i < |s|
    ensures i >= 0 ==> s[i] == c
    ensures forall k :: i < k < |s| ==> s[k] != c
  {
    if s == [] then -1
    else if s[|s| - 1] == c then |s| - 1
    else RFind(s[..|s| - 1], c)
  }

  /** os.path.splitext(p)[0]: p without the text from its last dot, unless
      that dot starts the last path component or only dots precede it there. */
  function Stem(p: string): (stem: string)
    ensures StartsWith(p, stem)
  {
    var sep := RFind(p, '/');
    var dot := RFind(p, '.');
    if dot > sep && exists k :: sep + 1 <= k < dot && p[k] != '.' then p[..dot] else p
  }

  /** file.lower().endswith(('.jpg', '.jpeg', '.png', '.webp')). */
  predicate IsImageFile(file: string) {
    var lower := LowerAscii(file);
    EndsWith(lower, ".jpg") || EndsWith(lower, ".jpeg") || EndsWith(lower, ".png") || EndsWith(lower, ".webp")
  }

  /** str.isdigit() on ASCII text. */
  predicate IsDigits(p: string) {
    p != [] && AllDigits(p)
  }

  /** [p for p in parts if p.isdigit()]. */
  function DigitFields(parts: seq<string>): (numbers: seq<string>)
    ensures forall i :: 0 <= i < |numbers| ==> IsDigits(numbers[i])
    ensures |numbers| <= |parts|
  {
    if parts == [] then []
    else (if IsDigits(parts[0]) then [parts[0]] else []) + DigitFields(parts[1..])
  }

  lemma {:induction false} DigitFieldsAppend(a: seq<string>, b: seq<string>)
    ensures DigitFields(a + b) == DigitFields(a) + DigitFields(b)
  {
    if a != [] {
      assert (a + b)[0] == a[0] && (a + b)[1..] == a[1..] + b;
      DigitFieldsAppend(a[1..], b);
    } else {
      assert a + b == b;
    }
  }

  /** The (y, x) an image file name gives: the last two all-digit fields of
      its stem split on "_"; None for a file that is skipped. */
  function TileCoord(file: string): Option<(int, int)> {
    if !IsImageFile(file) then None
    else
      var numbers := DigitFields(Split(Stem(file), '_'));
      if |numbers| >= 2 then
        Some((DigitsValue(numbers[|numbers| - 2]) as int, DigitsValue(numbers[|numbers| - 1]) as int))
      else None
  }

  /** Four pieces without the separator, joined by it, split back apart. */
  lemma SplitFour(a: string, b: string, c: string, d: string, sep: char)
    requires sep !in a && sep !in b && sep !in c && sep !in d
    ensures Split(a + [sep] + b + [sep] + c + [sep] + d, sep) == [a, b, c, d]
  {
    var cd := c + [sep] + d;
    var bcd := b + [sep] + cd;
    SplitNoSep(d, sep);
    SplitAfterPiece(c, d, sep);
    assert Split(cd, sep) == [c, d];
    SplitAfterPiece(b, cd, sep);
    assert Split(bcd, sep) == [b, c, d];
    SplitAfterPiece(a, bcd, sep);
    assert Split(a + [sep] + bcd, sep) == [a, b, c, d];
    Regroup(a, b, c, d, [sep]);
  }

  lemma Regroup(a: string, b: string, c: string, d: string, s: string)
    ensures a + s + b + s + c + s + d == a + s + (b + s + (c + s + d))
  {
    assert a + s + b + s + c + s + d == (a + s + b + s + c) + (s + d);
    assert a + s + b + s + c == (a + s + b) + (s + c);
    assert a + s + b == (a + s) + b;
  }

  /** The digit fields of "{level}_{face}_{r}_{c}" end with r and c. */
  lemma FieldsEndWith(level: string, face: string, r: string, c: string)
    requires '_' !in level && '_' !in face && IsDigits(r) && IsDigits(c)
    ensures var numbers := DigitFields(Split(level + "_" + face + "_" + r + "_" + c, '_'));
            |numbers| >= 2 && numbers[|numbers| - 2] == r && numbers[|numbers| - 1] == c
  {
    assert '_' !in r && '_' !in c by {
      assert forall i :: 0 <= i < |r| ==> IsDigit(r[i]);
      assert forall i :: 0 <= i < |c| ==> IsDigit(c[i]);
    }
    SplitFour(level, face, r, c, '_');
    assert Split(level + "_" + face + "_" + r + "_" + c, '_') == [level, face, r, c];
    assert [level, face, r, c] == [level, face] + [r, c];
    DigitFieldsAppend([level, face], [r, c]);
    assert [r, c][1..] == [c] && [c][1..] == [];
    assert DigitFields([c]) == [c];
    assert DigitFields([r, c]) == [r, c];
    var numbers := DigitFields([level, face]) + [r, c];
    assert numbers[|numbers| - 2] == r && numbers[|numbers| - 1] == c;
  }

  /** "{level}_{face}_{r}_{c}.jpg" is read at (r, c). */
  lemma TileCoordOfFields(level: string, face: string, r: string, c: string)
    requires '_' !in level && '_' !in face && IsDigits(r) && IsDigits(c)
    ensures TileCoord(level + "_" + face + "_" + r + "_" + c + ".jpg")
              == Some((DigitsValue(r) as int, DigitsValue(c) as int))
  {
    var stem := level + "_" + face + "_" + r + "_" + c;
    assert IsDigit(c[|c| - 1]);
    assert stem[|stem| - 1] == c[|c| - 1];
    LowerEndsWithJpg(stem);
    StemOfJpg(stem);
    FieldsEndWith(level, face, r, c);
  }

  /** A tile the crawlers save, named "l{level}_{face}_{row}_{col}.jpg", is
      read back at (row, col). */
  lemma TileCoordOfTileName(t: TileId)
    requires '_' !in t.face && t.row >= 0 && t.col >= 0
    ensures TileCoord(TileName(t)) == Some((t.row, t.col))
  {
    var l, r, c := LevelName(t.level), NatToString(t.row), NatToString(t.col);
    assert '_' !in l by {
      if t.level < 0 {
        var m := NatToString(-t.level);
        assert l == "l" + "-" + m;
        assert forall i :: 0 <= i < |m| ==> IsDigit(m[i]);
      } else {
        assert l == "l" + NatToString(t.level);
        assert forall i :: 0 <= i < |NatToString(t.level)| ==> IsDigit(NatToString(t.level)[i]);
      }
    }
    assert TileName(t) == l + "_" + t.face + "_" + r + "_" + c + ".jpg";
    TileCoordOfFields(l, t.face, r, c);
    DigitsOfNat(t.row);
    DigitsOfNat(t.col);
  }

  /** A name ending in ".jpg" after a character that is neither a dot nor a
      slash has everything before ".jpg" as its stem. */
  lemma StemOfJpg(stem: string)
    requires stem != [] && stem[|stem| - 1] != '.' && stem[|stem| - 1] != '/'
    ensures Stem(stem + ".jpg") == stem
  {
    var name := stem + ".jpg";
    var n := |stem|;
    assert name[n] == '.' && name[n + 1] == 'j' && name[n + 2] == 'p' && name[n + 3] == 'g';
    assert name[n - 1] == stem[n - 1];
    var dot := RFind(name, '.');
    var sep := RFind(name, '/');
    assert dot == n;
    assert sep < n - 1;
    assert sep + 1 <= n - 1 < dot && name[n - 1] != '.';
    assert name[..dot] == stem;
  }

  lemma LowerEndsWithJpg(stem: string)
    ensures EndsWith(LowerAscii(stem + ".jpg"), ".jpg")
  {
    LowerAsciiAppend(stem, ".jpg");
    assert LowerAscii(".jpg") == ".jpg";
  }

  lemma {:induction false} LowerAsciiAppend(a: string, b: string)
    ensures LowerAscii(a + b) == LowerAscii(a) + LowerAscii(b)
  {
    if a != [] {
      assert (a + b)[0] == a[0] && (a + b)[1..] == a[1..] + b;
      LowerAsciiAppend(a[1..], b);
    } else {
      assert a + b == b;
    }
  }

  /** Upper-case extensions count too: the test lower-cases the name first. */
  lemma UpperCaseJpgIsImage(stem: string)
    ensures IsImageFile(stem + ".JPG")
  {
    LowerAsciiAppend(stem, ".JPG");
    assert LowerAscii(".JPG") == ".jpg";
  }

  // ---------------------------------------------------------------------
  // the tile map
  // ---------------------------------------------------------------------

  /** A dict from (y, x) to a file path: its keys in insertion order and
      the value each key holds. */
  datatype TileMap = TileMap(keys: seq<(int, int)>, path: map<(int, int), string>)

  const EMPTY: TileMap := TileMap([], map[])

  /** The keys are distinct and are exactly the map's domain. */
  ghost predicate Valid(m: TileMap) {
    (forall i, j :: 0 <= i < j < |m.keys| ==> m.keys[i] != m.keys[j])
    && (forall k :: k in m.path <==> k in m.keys)
  }

  /** tile_map[k] = v: a new key goes last, an old one keeps its place and
      takes the new value. */
  function Insert(m: TileMap, k: (int, int), v: string): (r: TileMap)
    requires Valid(m)
    ensures Valid(r)
    ensures k in r.path && r.path[k] == v
    ensures forall q :: q != k ==> (q in r.path <==> q in m.path) && (q in m.path ==> r.path[q] == m.path[q])
    ensures KeysExtend(r.keys, m.keys)
  {
    if k in m.path then TileMap(m.keys, m.path[k := v]) else TileMap(m.keys + [k], m.path[k := v])
  }

  /** The keys a begins with the keys b: insertion only appends. */
  predicate KeysExtend(a: seq<(int, int)>, b: seq<(int, int)>) {
    |b| <= |a| && a[..|b|] == b
  }

  /** One file found by the walk: its folder and its name. */
  type Entry = (string, string)

  /** The body of the inner loop for one file. */
  function AddEntry(m: TileMap, e: Entry): (r: TileMap)
    requires Valid(m)
    ensures Valid(r)
  {
    match TileCoord(e.1)
    case None => m
    case Some(k) => Insert(m, k, PathJoin(e.0, e.1))
  }

  /** The tile map after the files es, in walk order. */
  function CollectEntries(es: seq<Entry>): (m: TileMap)
    ensures Valid(m)
    decreases |es|
  {
    if es == [] then EMPTY else AddEntry(CollectEntries(es[..|es| - 1]), es[|es| - 1])
  }

  /** The files of one folder of the walk, each paired with the folder. */
  function Pairs(root: string, files: seq<string>): (es: seq<Entry>)
    ensures |es| == |files|
    ensures forall i :: 0 <= i < |files| ==> es[i] == (root, files[i])
  {
    seq(|files|, i requires 0 <= i < |files| => (root, files[i]))
  }

  /** Every file os.walk yields, folder after folder. */
  function Entries(walk: seq<(string, seq<string>)>): seq<Entry>
    decreases |walk|
  {
    if walk == [] then [] else Entries(walk[..|walk| - 1]) + Pairs(walk[|walk| - 1].0, walk[|walk| - 1].1)
  }

  /** Adding one entry adds exactly the coordinate its name gives. */
  lemma AddEntryDomain(m: TileMap, e: Entry, k: (int, int))
    requires Valid(m)
    ensures k in AddEntry(m, e).path <==> k in m.path || TileCoord(e.1) == Some(k)
  {
  }

  /** A coordinate is a key exactly when some image file gives it. */
  lemma CollectKeys(es: seq<Entry>, k: (int, int))
    ensures k in CollectEntries(es).path <==> exists i :: 0 <= i < |es| && TileCoord(es[i].1) == Some(k)
  {
    if k in CollectEntries(es).path {
      var i := CollectKeysSound(es, k);
    }
    if exists i :: 0 <= i < |es| && TileCoord(es[i].1) == Some(k) {
      var i :| 0 <= i < |es| && TileCoord(es[i].1) == Some(k);
      CollectKeysComplete(es, i, k);
    }
  }

  /** A key was given by some file: the witness. */
  lemma {:induction false} CollectKeysSound(es: seq<Entry>, k: (int, int)) returns (i: int)
    requires k in CollectEntries(es).path
    ensures 0 <= i < |es| && TileCoord(es[i].1) == Some(k)
    decreases |es|
  {
    assert es != [];
    var front, last := es[..|es| - 1], es[|es| - 1];
    var m := CollectEntries(front);
    assert CollectEntries(es) == AddEntry(m, last);
    AddEntryDomain(m, last, k);
    if k in m.path {
      i := CollectKeysSound(front, k);
      assert es[i] == front[i];
    } else {
      i := |es| - 1;
    }
  }

  /** Every coordinate a file gives is a key. */
  lemma {:induction false} CollectKeysComplete(es: seq<Entry>, i: int, k: (int, int))
    requires 0 <= i < |es| && TileCoord(es[i].1) == Some(k)
    ensures k in CollectEntries(es).path
    decreases |es|
  {
    var front, last := es[..|es| - 1], es[|es| - 1];
    var m := CollectEntries(front);
    assert CollectEntries(es) == AddEntry(m, last);
    AddEntryDomain(m, last, k);
    if i < |es| - 1 {
      assert front[i] == es[i];
      CollectKeysComplete(front, i, k);
    } else {
      assert es[i] == last;
    }
  }

  /** A later file with the same coordinate overwrites an earlier one: a
      key holds the path of the last file that gives it. */
  lemma {:induction false} CollectLastWins(es: seq<Entry>, i: int)
    requires 0 <= i < |es| && TileCoord(es[i].1).Some?
    requires forall j :: i < j < |es| ==> TileCoord(es[j].1) != TileCoord(es[i].1)
    ensures TileCoord(es[i].1).value in CollectEntries(es).path
    ensures CollectEntries(es).path[TileCoord(es[i].1).value] == PathJoin(es[i].0, es[i].1)
    decreases |es|
  {
    var front := es[..|es| - 1];
    if i < |es| - 1 {
      assert front[i] == es[i];
      assert forall j :: i < j < |front| ==> front[j] == es[j];
      CollectLastWins(front, i);
    }
  }

  /** Files that give no coordinate leave the map empty. */
  lemma {:induction false} CollectNone(es: seq<Entry>)
    requires forall j :: 0 <= j < |es| ==> TileCoord(es[j].1).None?
    ensures CollectEntries(es) == EMPTY
    decreases |es|
  {
    if es != [] {
      var front := es[..|es| - 1];
      assert forall j :: 0 <= j < |front| ==> front[j] == es[j];
      CollectNone(front);
    }
  }

  /** The first key inserted, whose path is the sample tile, is the
      coordinate of the first image file that gives one. */
  lemma {:induction false} CollectFirstKey(es: seq<Entry>, i: int)
    requires 0 <= i < |es| && TileCoord(es[i].1).Some?
    requires forall j :: 0 <= j < i ==> TileCoord(es[j].1).None?
    ensures CollectEntries(es).keys != [] && CollectEntries(es).keys[0] == TileCoord(es[i].1).value
    decreases |es|
  {
    var front := es[..|es| - 1];
    assert forall j :: 0 <= j < |front| ==> front[j] == es[j];
    if i < |es| - 1 {
      CollectFirstKey(front, i);
    } else {
      CollectNone(front);
    }
  }

  /** The tile map is empty exactly when no file of the walk gives a
      coordinate. */
  lemma CollectEmptyIff(es: seq<Entry>)
    ensures CollectEntries(es).keys == [] <==> forall j :: 0 <= j < |es| ==> TileCoord(es[j].1).None?
  {
    var m := CollectEntries(es);
    if m.keys == [] {
      forall j | 0 <= j < |es| ensures TileCoord(es[j].1).None? {
        if TileCoord(es[j].1).Some? {
          CollectKeys(es, TileCoord(es[j].1).value);
          assert false;
        }
      }
    } else {
      CollectKeys(es, m.keys[0]);
    }
  }

  /** The inner loop, over the files of one folder of the walk. */
  method CollectFolder(m0: TileMap, root: string, files: seq<string>, ghost before: seq<Entry>) returns (m: TileMap)
    requires m0 == CollectEntries(before)
    ensures m == CollectEntries(before + Pairs(root, files))
  {
    m := m0;
    assert before + Pairs(root, files[..0]) == before;
    for j := 0 to |files|
      invariant m == CollectEntries(before + Pairs(root, files[..j]))
    {
      ghost var done := before + Pairs(root, files[..j]);
      assert before + Pairs(root, files[..j + 1]) == done + [(root, files[j])];
      assert (done + [(root, files[j])])[..|done|] == done;
      var coord := TileCoord(files[j]);
      if coord.Some? {
        m := Insert(m, coord.value, PathJoin(root, files[j]));
      }
    }
    assert files[..|files|] == files;
  }

  /** The nested loop over os.walk that fills tile_map. */
  method CollectTiles(walk: seq<(string, seq<string>)>) returns (m: TileMap)
    ensures m == CollectEntries(Entries(walk))
  {
    m := EMPTY;
    for i := 0 to |walk|
      invariant m == CollectEntries(Entries(walk[..i]))
    {
      assert walk[..i + 1][..i] == walk[..i];
      m := CollectFolder(m, walk[i].0, walk[i].1, Entries(walk[..i]));
    }
    assert walk[..|walk|] == walk;
  }

  // ---------------------------------------------------------------------
  // the canvas
  // ---------------------------------------------------------------------

  /** The largest of a non-empty list of numbers. */
  function MaxOf(xs: seq<int>): (top: int)
    requires xs != []
    ensures top in xs
    ensures forall i :: 0 <= i < |xs| ==> xs[i] <= top
  {
    if |xs| == 1 then xs[0]
    else
      var rest := MaxOf(xs[1..]);
      assert forall i :: 1 <= i < |xs| ==> xs[i] == xs[1..][i - 1];
      if xs[0] < rest then rest else xs[0]
  }

  function Rows(keys: seq<(int, int)>): (rows: seq<int>)
    ensures |rows| == |keys| && forall i :: 0 <= i < |keys| ==> rows[i] == keys[i].0
  {
    seq(|keys|, i requires 0 <= i < |keys| => keys[i].0)
  }

  function Cols(keys: seq<(int, int)>): (cols: seq<int>)
    ensures |cols| == |keys| && forall i :: 0 <= i < |keys| ==> cols[i] == keys[i].1
  {
    seq(|keys|, i requires 0 <= i < |keys| => keys[i].1)
  }

  /** One paste: which file, and the top-left corner it goes to. */
  datatype Placement = Placement(file: string, left: int, top: int)

  /** The image being assembled; its pixels are not modelled, only its size
      and the pastes made on it, in order. */
  class Canvas {
    var width: int
    var height: int
    var pastes: seq<Placement>

    /** Image.new('RGB', (w, h)). */
    constructor (w: int, h: int)
      ensures width == w && height == h && pastes == []
    {
      width := w;
      height := h;
      pastes := [];
    }

    /** face_image.paste(tile, (left, top)). */
    method Paste(file: string, left: int, top: int)
      modifies this
      ensures width == old(width) && height == old(height)
      ensures pastes == old(pastes) + [Placement(file, left, top)]
    {
      pastes := pastes + [Placement(file, left, top)];
    }
  }

  /** Where tile (y, x) goes: column x - 1 and row y - 1 of the tile grid. */
  function PlaceOf(k: (int, int), file: string, tw: int, th: int): Placement {
    Placement(file, (k.1 - 1) * tw, (k.0 - 1) * th)
  }

  /** The pastes of the map, in its key order. */
  function Layout(m: TileMap, tw: int, th: int): (ps: seq<Placement>)
    requires Valid(m)
    ensures |ps| == |m.keys|
  {
    seq(|m.keys|, i requires 0 <= i < |m.keys| => PlaceOf(m.keys[i], m.path[m.keys[i]], tw, th))
  }

  /** Two tw-by-th rectangles share a pixel. */
  predicate Overlap(p: Placement, q: Placement, tw: int, th: int) {
    p.left < q.left + tw && q.left < p.left + tw && p.top < q.top + th && q.top < p.top + th
  }

  lemma GridApart(a: int, b: int, w: int)
    requires a < b && w > 0
    ensures (a - 1) * w + w <= (b - 1) * w
  {
    assert (b - 1) * w - (a - 1) * w == (b - a) * w;
    assert (b - a) * w >= w by {
      assert (b - a - 1) * w >= 0;
    }
  }

  /** Tiles with distinct positions never overlap. */
  lemma LayoutDisjoint(m: TileMap, tw: int, th: int, i: int, j: int)
    requires Valid(m) && tw > 0 && th > 0
    requires 0 <= i < |m.keys| && 0 <= j < |m.keys| && i != j
    ensures !Overlap(Layout(m, tw, th)[i], Layout(m, tw, th)[j], tw, th)
  {
    var a, b := m.keys[i], m.keys[j];
    assert a != b;
    if a.1 < b.1 {
      GridApart(a.1, b.1, tw);
    } else if b.1 < a.1 {
      GridApart(b.1, a.1, tw);
    } else if a.0 < b.0 {
      GridApart(a.0, b.0, th);
    } else {
      GridApart(b.0, a.0, th);
    }
  }

  /** A canvas max_col tiles wide and max_row tiles high. */
  function CanvasWidth(m: TileMap, tw: int): int
    requires m.keys != []
  {
    MaxOf(Cols(m.keys)) * tw
  }

  function CanvasHeight(m: TileMap, th: int): int
    requires m.keys != []
  {
    MaxOf(Rows(m.keys)) * th
  }

  lemma GridFits(a: int, top: int, w: int)
    requires 1 <= a <= top && w >= 0
    ensures 0 <= (a - 1) * w && (a - 1) * w + w <= top * w
  {
    assert (a - 1) * w + w == a * w;
    assert top * w - a * w == (top - a) * w;
  }

  /** Every tile whose row and column are at least 1 lies inside the
      canvas. */
  lemma LayoutInside(m: TileMap, tw: int, th: int, i: int)
    requires Valid(m) && tw >= 0 && th >= 0 && 0 <= i < |m.keys|
    requires m.keys[i].0 >= 1 && m.keys[i].1 >= 1
    ensures var p := Layout(m, tw, th)[i];
            0 <= p.left && p.left + tw <= CanvasWidth(m, tw)
            && 0 <= p.top && p.top + th <= CanvasHeight(m, th)
  {
    var k := m.keys[i];
    assert Layout(m, tw, th)[i] == PlaceOf(k, m.path[k], tw, th);
    var cols, rows := Cols(m.keys), Rows(m.keys);
    assert cols[i] == k.1 && rows[i] == k.0;
    PlaceInside(k, m.path[k], MaxOf(cols), MaxOf(rows), tw, th);
  }

  lemma PlaceInside(k: (int, int), file: string, maxCol: int, maxRow: int, tw: int, th: int)
    requires 1 <= k.1 <= maxCol && 1 <= k.0 <= maxRow && tw >= 0 && th >= 0
    ensures var p := PlaceOf(k, file, tw, th);
            0 <= p.left && p.left + tw <= maxCol * tw
            && 0 <= p.top && p.top + th <= maxRow * th
  {
    GridFits(k.1, maxCol, tw);
    GridFits(k.0, maxRow, th);
  }

  /** A tile numbered from 0 starts one tile left of the canvas. */
  lemma ColumnZeroOutside(m: TileMap, tw: int, th: int, i: int)
    requires Valid(m) && tw > 0 && 0 <= i < |m.keys| && m.keys[i].1 == 0
    ensures Layout(m, tw, th)[i].left == -tw
  {
  }

  /** The paste loop: every tile at its place, in the map's key order. */
  method PasteTiles(canvas: Canvas, m: TileMap, tw: int, th: int)
    requires Valid(m) && canvas.pastes == []
    modifies canvas
    ensures canvas.width == old(canvas.width) && canvas.height == old(canvas.height)
    ensures canvas.pastes == Layout(m, tw, th)
  {
    ghost var layout := Layout(m, tw, th);
    for i := 0 to |m.keys|
      invariant canvas.width == old(canvas.width) && canvas.height == old(canvas.height)
      invariant canvas.pastes == layout[..i]
    {
      var k := m.keys[i];
      canvas.Paste(m.path[k], (k.1 - 1) * tw, (k.0 - 1) * th);
      assert layout[..i + 1] == layout[..i] + [layout[i]];
    }
    assert layout[..|m.keys|] == layout;
  }

  // ---------------------------------------------------------------------
  // stitch_face
  // ---------------------------------------------------------------------

  datatype StitchError =
    | NoLevelFolders   // the ValueError raised for an empty listing
    | NoTiles          // max() of an empty list

  /** The tile map of the highest level of a face. */
  function FaceTiles(faceFolder: string, levelDirs: seq<string>, walkOf: string -> seq<(string, seq<string>)>): TileMap
    requires levelDirs != []
  {
    CollectEntries(Entries(walkOf(PathJoin(faceFolder, MaxName(levelDirs)))))
  }

  function OutputName(face: string): string {
    "./cube_faces/" + face + ".jpg"
  }

  /** stitch_face. The level folders, the walk of a folder and the size of
      an image file are inputs; the canvas, when one is made, is returned
      with the name it is saved under. */
  method StitchFace(faceFolder: string, face: string, levelDirs: seq<string>,
                    walkOf: string -> seq<(string, seq<string>)>, sizeOf: string -> (nat, nat))
    returns (err: Option<StitchError>, canvas: Canvas?, output: string)
    ensures levelDirs == [] ==> err == Some(NoLevelFolders) && canvas == null
    ensures levelDirs != [] && FaceTiles(faceFolder, levelDirs, walkOf).keys == [] ==>
              err == Some(NoTiles) && canvas == null
    ensures levelDirs != [] && FaceTiles(faceFolder, levelDirs, walkOf).keys != [] ==>
              var m := FaceTiles(faceFolder, levelDirs, walkOf);
              var size := sizeOf(m.path[m.keys[0]]);
              err == None && canvas != null && fresh(canvas)
              && canvas.width == CanvasWidth(m, size.0) && canvas.height == CanvasHeight(m, size.1)
              && canvas.pastes == Layout(m, size.0, size.1)
              && output == OutputName(face)
  {
    output := "";
    canvas := null;
    if levelDirs == [] {
      return Some(NoLevelFolders), canvas, output;
    }
    var highest := MaxName(levelDirs);
    var levelPath := PathJoin(faceFolder, highest);
    var m := CollectTiles(walkOf(levelPath));
    if m.keys == [] {
      return Some(NoTiles), canvas, output;
    }
    var size := sizeOf(m.path[m.keys[0]]);
    var tw, th := size.0, size.1;
    canvas := new Canvas(MaxOf(Cols(m.keys)) * tw, MaxOf(Rows(m.keys)) * th);
    PasteTiles(canvas, m, tw, th);
    output := OutputName(face);
    err := None;
  }
}
