/// The script that checks, for every line "key,path" of the mapping file,
/// that both the preview and the first back tile of the item exist on the
/// CDN, and then moves the line from the mapping file to the list of items
/// that have images.
module CheckImageExists {
  import opened Common
  import opened Text
  import opened Tiles
  import opened LineFiles

  const MAPPING_FILE := "product-mapping-image-key.txt"
  const OUTPUT_FILE := "has_image.txt"
  const MAX_RETRY := 3
  const BASE_URL := "https://imgscdn.ajun720.cn"

  /** One of the first MAX_RETRY requests at a URL got a 200. */
  predicate AnyOk(outs: seq<Attempt>) {
    exists j :: 0 <= j < MAX_RETRY && IsOk(AttemptAt(outs, j))
  }

  /** The HEAD retry loop: every attempt that raises or answers anything
      but 200 is followed by another one, up to MAX_RETRY. It answers as
      the body-fetching retry loops would, minus the body. */
  method CheckImageExists(outs: seq<Attempt>) returns (found: bool)
    ensures found <==> AnyOk(outs)
    ensures found == FirstOk(outs, 0, MAX_RETRY).Some?
  {
    FirstOkMeaning(outs, 0, MAX_RETRY);
    for attempt := 0 to MAX_RETRY
      invariant forall j :: 0 <= j < attempt ==> !IsOk(AttemptAt(outs, j))
    {
      if IsOk(AttemptAt(outs, attempt)) {
        return true;
      }
    }
    return false;
  }

  /** The URL probed besides the preview: the tile at row 1, column 1 of
      level 1 of face b. */
  function AnchorUrl(imagePath: string): (u: string)
    ensures u == TileUrl(BASE_URL, imagePath, TileId("b", 1, 1, 1))
  {
    assert IntToString(1) == "1";
    assert LevelName(1) == "l1";
    assert TileName(TileId("b", 1, 1, 1)) == "l1" + "_" + "b" + "_" + "1" + "_" + "1" + ".jpg";
    BASE_URL + "/" + imagePath + "/b/l1/1/l1_b_1_1.jpg"
  }

  /** An item counts as having images when both probes succeed. */
  predicate Accepted(net: Network, imagePath: string) {
    AnyOk(net(PreviewUrl(BASE_URL, imagePath))) && AnyOk(net(AnchorUrl(imagePath)))
  }

  /** An accepted line s: appended to the output file, then every line of
      the mapping file that strips to s is dropped, if that file exists. */
  function AcceptEffect(text: map<string, string>, s: string): map<string, string> {
    DropFromFile(AppendText(text, OUTPUT_FILE, s + "\n"), MAPPING_FILE, s)
  }

  /** What one line read from the mapping file does to the text files; None
      where the split raises, for a non-blank line without a comma. */
  function LineEffect(text: map<string, string>, net: Network, line: string): Option<map<string, string>> {
    var s := Strip(line);
    if s == [] then Some(text)
    else match SplitOnce(s, ',')
      case None => None
      case Some(parts) => if Accepted(net, parts.1) then Some(AcceptEffect(text, s)) else Some(text)
  }

  /** Blank lines are skipped, a non-blank line without a comma raises, and
      a line with one changes the files exactly when both probes of its path
      succeed. */
  lemma LineEffectMeaning(text: map<string, string>, net: Network, line: string)
    ensures Strip(line) == [] ==> LineEffect(text, net, line) == Some(text)
    ensures LineEffect(text, net, line).None? <==> Strip(line) != [] && ',' !in Strip(line)
    ensures Strip(line) != [] && ',' in Strip(line) ==>
              var imagePath := SplitOnce(Strip(line), ',').value.1;
              (LineEffect(text, net, line) == Some(text) <==> !Accepted(net, imagePath))
  {
    var s := Strip(line);
    if s != [] && ',' in s && Accepted(net, SplitOnce(s, ',').value.1) {
      AcceptEffectMeaning(text, s, "");
      assert |AcceptEffect(text, s)[OUTPUT_FILE]| > |ReadText(text, OUTPUT_FILE)|;
    }
  }

  /** An accepted line is logged once in the output file, leaves the mapping
      file without any line that strips to it and with every other line,
      and touches no other file. */
  lemma AcceptEffectMeaning(text: map<string, string>, s: string, l: string)
    ensures OUTPUT_FILE in AcceptEffect(text, s)
    ensures AcceptEffect(text, s)[OUTPUT_FILE] == ReadText(text, OUTPUT_FILE) + s + "\n"
    ensures (MAPPING_FILE in AcceptEffect(text, s)) == (MAPPING_FILE in text)
    ensures MAPPING_FILE in text ==>
              (l in FileLines(AcceptEffect(text, s)[MAPPING_FILE]) <==>
                 l in FileLines(text[MAPPING_FILE]) && Strip(l) != s)
    ensures forall p :: p != OUTPUT_FILE && p != MAPPING_FILE ==>
              (p in AcceptEffect(text, s) <==> p in text)
              && (p in text ==> AcceptEffect(text, s)[p] == text[p])
  {
    var after := AppendText(text, OUTPUT_FILE, s + "\n");
    DropFromFileMeaning(after, MAPPING_FILE, s, l);
    assert MAPPING_FILE != OUTPUT_FILE by {
      assert |MAPPING_FILE| != |OUTPUT_FILE|;
    }
  }

  /** process_line: strip, split on the first comma, probe both URLs, and
      on success log the line and drop it from the mapping file. ok is false
      where the split raises. */
  method ProcessLine(disk: Disk, net: Network, line: string) returns (ok: bool)
    modifies disk
    ensures ok == LineEffect(old(disk.text), net, line).Some?
    ensures disk.text == (if ok then LineEffect(old(disk.text), net, line).value else old(disk.text))
    ensures disk.blobs == old(disk.blobs)
  {
    var s := Strip(line);
    if s == [] {
      return true;
    }
    var parts := SplitOnce(s, ',');
    if parts.None? {
      return false;
    }
    var imagePath := parts.value.1;
    var previewOk := CheckImageExists(net(PreviewUrl(BASE_URL, imagePath)));
    var imgOk := CheckImageExists(net(AnchorUrl(imagePath)));
    if previewOk && imgOk {
      disk.Append(OUTPUT_FILE, s + "\n");
      RemoveStrippedLines(disk, MAPPING_FILE, s);
    }
    return true;
  }

  /** A line leaves the files alone or has the effect of an accepted line. */
  lemma LineEffectShape(text: map<string, string>, net: Network, line: string)
    ensures LineEffect(text, net, line).Some? ==>
              LineEffect(text, net, line).value == text
              || LineEffect(text, net, line).value == AcceptEffect(text, Strip(line))
  {
    var s := Strip(line);
    if s != [] {
      match SplitOnce(s, ',')
      case None =>
      case Some(parts) =>
        if Accepted(net, parts.1) {
          assert LineEffect(text, net, line) == Some(AcceptEffect(text, s));
        } else {
          assert LineEffect(text, net, line) == Some(text);
        }
    }
  }

  /** The text files after a run, and whether it stopped on a raise. */
  datatype Outcome = Outcome(text: map<string, string>, raised: bool)

  /** The lines processed one after the other; the first one that raises
      ends the run. */
  function LinesEffect(text: map<string, string>, net: Network, lines: seq<string>): Outcome
    decreases |lines|
  {
    if lines == [] then Outcome(text, false)
    else match LineEffect(text, net, lines[0])
      case None => Outcome(text, true)
      case Some(t) => LinesEffect(t, net, lines[1..])
  }

  /** main: nothing happens without a mapping file; otherwise its lines, as
      read at the start, are processed. */
  function RunEffect(text: map<string, string>, net: Network): Outcome {
    if MAPPING_FILE !in text then Outcome(text, false)
    else LinesEffect(text, net, FileLines(text[MAPPING_FILE]))
  }

  /** A line that raises does so whatever the files hold. */
  predicate Malformed(line: string) {
    Strip(line) != [] && ',' !in Strip(line)
  }

  /** The run raises exactly when some line read is non-blank and has no
      comma. */
  lemma {:induction false} LinesRaiseIff(text: map<string, string>, net: Network, lines: seq<string>)
    ensures LinesEffect(text, net, lines).raised <==> exists i :: 0 <= i < |lines| && Malformed(lines[i])
    decreases |lines|
  {
    if lines != [] {
      LineEffectMeaning(text, net, lines[0]);
      match LineEffect(text, net, lines[0])
      case None =>
        assert Malformed(lines[0]);
      case Some(t) =>
        LinesRaiseIff(t, net, lines[1..]);
        assert !Malformed(lines[0]);
        assert forall i :: 1 <= i < |lines| ==> lines[i] == lines[1..][i - 1];
    }
  }

  /** The output file is only ever appended to. */
  lemma {:induction false} LinesOutputGrows(text: map<string, string>, net: Network, lines: seq<string>)
    ensures StartsWith(ReadText(LinesEffect(text, net, lines).text, OUTPUT_FILE), ReadText(text, OUTPUT_FILE))
    decreases |lines|
  {
    if lines != [] {
      match LineEffect(text, net, lines[0])
      case None =>
      case Some(t) =>
        LinesOutputGrows(t, net, lines[1..]);
        LineEffectShape(text, net, lines[0]);
        var before := ReadText(text, OUTPUT_FILE);
        if t != text {
          var s := Strip(lines[0]);
          AcceptEffectMeaning(text, s, "");
          assert ReadText(t, OUTPUT_FILE) == before + s + "\n";
          assert (before + s + "\n")[..|before|] == before;
        } else {
          assert before[..|before|] == before;
        }
        assert StartsWith(ReadText(t, OUTPUT_FILE), before);
        StartsWithTransitive(ReadText(LinesEffect(t, net, lines[1..]).text, OUTPUT_FILE),
                             ReadText(t, OUTPUT_FILE), ReadText(text, OUTPUT_FILE));
    }
  }

  /** The mapping file never gains a line, never appears and never goes,
      and no file but the two is touched. */
  lemma {:induction false} LinesOnlyRemove(text: map<string, string>, net: Network, lines: seq<string>, l: string)
    ensures (MAPPING_FILE in LinesEffect(text, net, lines).text) == (MAPPING_FILE in text)
    ensures MAPPING_FILE in text && l in FileLines(LinesEffect(text, net, lines).text[MAPPING_FILE]) ==>
              l in FileLines(text[MAPPING_FILE])
    ensures forall p :: p != OUTPUT_FILE && p != MAPPING_FILE ==>
              (p in LinesEffect(text, net, lines).text <==> p in text)
              && (p in text ==> LinesEffect(text, net, lines).text[p] == text[p])
    decreases |lines|
  {
    if lines != [] {
      match LineEffect(text, net, lines[0])
      case None =>
      case Some(t) =>
        LinesOnlyRemove(t, net, lines[1..], l);
        LineEffectShape(text, net, lines[0]);
        if t != text {
          AcceptEffectMeaning(text, Strip(lines[0]), l);
        }
    }
  }

  /** main, with the lines of the mapping file processed in file order. */
  method Run(disk: Disk, net: Network) returns (raised: bool)
    modifies disk
    ensures Outcome(disk.text, raised) == RunEffect(old(disk.text), net)
    ensures disk.blobs == old(disk.blobs)
  {
    if MAPPING_FILE !in disk.text {
      return false;
    }
    var lines := FileLines(disk.text[MAPPING_FILE]);
    ghost var goal := LinesEffect(disk.text, net, lines);
    for i := 0 to |lines|
      invariant LinesEffect(disk.text, net, lines[i..]) == goal
      invariant disk.blobs == old(disk.blobs)
    {
      assert lines[i..][1..] == lines[i + 1..];
      var ok := ProcessLine(disk, net, lines[i]);
      if !ok {
        return true;
      }
    }
    assert lines[|lines|..] == [];
    return false;
  }
}
