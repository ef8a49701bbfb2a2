/// Removing a line from a text file the way the mapping-key scripts do it:
/// read all lines, then rewrite the file with every line whose stripped text
/// differs from a given string, each written back unchanged.
module LineFiles {
  import opened Common
  import opened Text

  /** The lines a rewrite loop writes back: those `keep` accepts, each
      unchanged, in the file's order. */
  function KeepLines(lines: seq<string>, keep: string -> bool): (r: seq<string>)
    ensures |r| <= |lines|
  {
    if lines == [] then []
    else (if keep(lines[0]) then [lines[0]] else []) + KeepLines(lines[1..], keep)
  }

  /** Exactly the accepted lines stay, duplicates included. */
  lemma {:induction false} KeepLinesMembers(lines: seq<string>, keep: string -> bool, l: string)
    ensures l in KeepLines(lines, keep) <==> l in lines && keep(l)
  {
    if lines != [] {
      KeepLinesMembers(lines[1..], keep, l);
      assert l in lines <==> l == lines[0] || l in lines[1..];
    }
  }

  /** The filter acts on each part of the file separately, so the kept lines
      stay in the file's order. */
  lemma {:induction false} KeepLinesAppend(a: seq<string>, b: seq<string>, keep: string -> bool)
    ensures KeepLines(a + b, keep) == KeepLines(a, keep) + KeepLines(b, keep)
  {
    if a != [] {
      assert (a + b)[0] == a[0] && (a + b)[1..] == a[1..] + b;
      KeepLinesAppend(a[1..], b, keep);
    } else {
      assert a + b == b;
    }
  }

  /** A file whose every line is accepted is written back as it was. */
  lemma {:induction false} KeepLinesAll(lines: seq<string>, keep: string -> bool)
    requires forall i :: 0 <= i < |lines| ==> keep(lines[i])
    ensures KeepLines(lines, keep) == lines
  {
    if lines != [] {
      KeepLinesAll(lines[1..], keep);
      assert [lines[0]] + lines[1..] == lines;
    }
  }

  /** Filtering twice with the same test removes nothing more. */
  lemma KeepLinesIdempotent(lines: seq<string>, keep: string -> bool)
    ensures KeepLines(KeepLines(lines, keep), keep) == KeepLines(lines, keep)
  {
    var r := KeepLines(lines, keep);
    forall i | 0 <= i < |r| ensures keep(r[i]) {
      KeepLinesMembers(lines, keep, r[i]);
    }
    KeepLinesAll(r, keep);
  }

  /** The kept lines still read back as themselves: only the file's last
      line may lack a newline, and when kept it stays last. */
  lemma {:induction false} KeepLinesAreLines(lines: seq<string>, keep: string -> bool)
    requires forall i :: 0 <= i < |lines| ==> IsLine(lines[i])
    requires forall i :: 0 <= i < |lines| - 1 ==> EndsInNewline(lines[i])
    ensures forall i :: 0 <= i < |KeepLines(lines, keep)| ==> IsLine(KeepLines(lines, keep)[i])
    ensures forall i :: 0 <= i < |KeepLines(lines, keep)| - 1 ==> EndsInNewline(KeepLines(lines, keep)[i])
  {
    if lines != [] {
      KeepLinesAreLines(lines[1..], keep);
      var rest := KeepLines(lines[1..], keep);
      if keep(lines[0]) {
        var r := KeepLines(lines, keep);
        assert r == [lines[0]] + rest;
        forall i | 0 <= i < |r| - 1 ensures EndsInNewline(r[i]) {
          if i == 0 { assert |lines| >= 2; } else { assert r[i] == rest[i - 1]; }
        }
      }
    }
  }

  /** A file rewritten with its kept lines reads back as exactly those. */
  lemma KeepLinesReadBack(t: string, keep: string -> bool)
    ensures FileLines(Concat(KeepLines(FileLines(t), keep))) == KeepLines(FileLines(t), keep)
  {
    KeepLinesAreLines(FileLines(t), keep);
    FileLinesOfConcat(KeepLines(FileLines(t), keep));
  }

  /** `if l.strip() != s`: the test of both mapping-key scripts. */
  function StripDiffers(s: string): string -> bool {
    l => Strip(l) != s
  }

  /** The lines kept by `for l in lines: if l.strip() != s: f.write(l)`. */
  function DropStripped(lines: seq<string>, s: string): seq<string> {
    KeepLines(lines, StripDiffers(s))
  }

  /** Exactly the lines whose stripped text is s go, duplicates included. */
  lemma DropStrippedMembers(lines: seq<string>, s: string, l: string)
    ensures l in DropStripped(lines, s) <==> l in lines && Strip(l) != s
  {
    KeepLinesMembers(lines, StripDiffers(s), l);
  }

  /** The text of a file after its lines stripping to s are dropped. */
  function DropFromText(t: string, s: string): string {
    Concat(DropStripped(FileLines(t), s))
  }

  /** Re-reading the rewritten file gives exactly the kept lines. */
  lemma DropFromTextReadBack(t: string, s: string)
    ensures FileLines(DropFromText(t, s)) == DropStripped(FileLines(t), s)
  {
    KeepLinesReadBack(t, StripDiffers(s));
  }

  /** The keys a file lists after the removal: those it listed before, all
      but s. */
  lemma DropFromTextKeys(t: string, s: string, x: string)
    ensures x in ReadStripped(DropFromText(t, s)) <==> x in ReadStripped(t) && x != s
  {
    DropFromTextReadBack(t, s);
    NonBlankMembers(FileLines(t), x);
    NonBlankMembers(DropStripped(FileLines(t), s), x);
    if x in ReadStripped(t) && x != s {
      var l :| l in FileLines(t) && Strip(l) == x;
      DropStrippedMembers(FileLines(t), s, l);
    }
    if x in ReadStripped(DropFromText(t, s)) {
      var l :| l in DropStripped(FileLines(t), s) && Strip(l) == x;
      DropStrippedMembers(FileLines(t), s, l);
    }
  }

  /** The text files after `if os.path.exists(path)`: read, filter, rewrite;
      a missing file is left missing. */
  function DropFromFile(text: map<string, string>, path: string, s: string): map<string, string> {
    if path in text then text[path := DropFromText(text[path], s)] else text
  }

  /** After the removal no line of the file strips to s, every other line
      is still there, and no other file has changed. */
  lemma DropFromFileMeaning(text: map<string, string>, path: string, s: string, l: string)
    ensures DropFromFile(text, path, s).Keys == text.Keys
    ensures forall p :: p in text && p != path ==> DropFromFile(text, path, s)[p] == text[p]
    ensures path in text ==>
              (l in FileLines(DropFromFile(text, path, s)[path]) <==> l in FileLines(text[path]) && Strip(l) != s)
  {
    if path in text {
      DropFromTextReadBack(text[path], s);
      DropStrippedMembers(FileLines(text[path]), s, l);
    }
  }

  /** Removing the same text from a file twice changes nothing the second
      time; so does removing it from a missing file. */
  lemma DropFromFileIdempotent(text: map<string, string>, path: string, s: string)
    ensures DropFromFile(DropFromFile(text, path, s), path, s) == DropFromFile(text, path, s)
    ensures path !in text ==> DropFromFile(text, path, s) == text
  {
    if path in text {
      var t := text[path];
      DropFromTextReadBack(t, s);
      KeepLinesIdempotent(FileLines(t), StripDiffers(s));
      assert DropFromText(DropFromText(t, s), s) == DropFromText(t, s);
    }
  }

  lemma DropStrippedStep(prefix: seq<string>, l: string, s: string)
    ensures Concat(DropStripped(prefix + [l], s))
              == Concat(DropStripped(prefix, s)) + (if Strip(l) != s then l else "")
  {
    KeepLinesAppend(prefix, [l], StripDiffers(s));
    ConcatAppend(DropStripped(prefix, s), DropStripped([l], s));
    assert DropStripped([l], s) == if Strip(l) != s then [l] else [];
  }

  /** The rewrite loop: every line read is written back unless it strips
      to s. */
  method WriteKept(lines: seq<string>, s: string) returns (written: string)
    ensures written == Concat(DropStripped(lines, s))
  {
    written := "";
    for i := 0 to |lines|
      invariant written == Concat(DropStripped(lines[..i], s))
    {
      assert lines[..i + 1] == lines[..i] + [lines[i]];
      DropStrippedStep(lines[..i], lines[i], s);
      if Strip(lines[i]) != s {
        written := written + lines[i];
      }
    }
    assert lines[..|lines|] == lines;
  }

  /** Read the file, rewrite it with the kept lines; a missing file is not
      created. */
  method RemoveStrippedLines(disk: Disk, path: string, s: string)
    modifies disk
    ensures disk.text == DropFromFile(old(disk.text), path, s)
    ensures disk.blobs == old(disk.blobs)
  {
    if path in disk.text {
      var written := WriteKept(FileLines(disk.text[path]), s);
      disk.Write(path, written);
    }
  }
}
