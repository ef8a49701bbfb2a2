/// The string operations the scripts rely on, with Python's meaning (and, for
/// `ReplaceAll`, also that of JavaScript's global `replace`).
module Text {
  import opened Common

  /** str.isspace() for one character. */
  predicate IsSpace(c: char) {
    c == ' ' || ('\t' <= c <= '\r') || ('\U{1c}' <= c <= '\U{1f}')
    || c == '\U{85}' || c == '\U{a0}' || c == '\U{1680}'
    || ('\U{2000}' <= c <= '\U{200a}') || c == '\U{2028}' || c == '\U{2029}'
    || c == '\U{202f}' || c == '\U{205f}' || c == '\U{3000}'
  }

  predicate IsStripped(s: string) {
    s == [] || (!IsSpace(s[0]) && !IsSpace(s[|s| - 1]))
  }

  function TrimLeft(s: string): (r: string)
    ensures |r| <= |s| && r == s[|s| - |r|..]
    ensures forall i :: 0 <= i < |s| - |r| ==> IsSpace(s[i])
    ensures r == [] || !IsSpace(r[0])
  {
    if s != [] && IsSpace(s[0]) then
      var r := TrimLeft(s[1..]);
      assert r == s[1..][|s| - 1 - |r|..] == s[|s| - |r|..];
      assert forall i :: 1 <= i < |s| - |r| ==> s[i] == s[1..][i - 1];
      r
    else s
  }

  function TrimRight(s: string): (r: string)
    ensures |r| <= |s| && r == s[..|r|]
    ensures forall i :: |r| <= i < |s| ==> IsSpace(s[i])
    ensures r == [] || !IsSpace(r[|r| - 1])
  {
    if s != [] && IsSpace(s[|s| - 1]) then
      var r := TrimRight(s[..|s| - 1]);
      assert r == s[..|s| - 1][..|r|] == s[..|r|];
      assert forall i :: |r| <= i < |s| - 1 ==> s[i] == s[..|s| - 1][i];
      r
    else s
  }

  /** str.strip(). */
  function Strip(s: string): (r: string)
    ensures IsStripped(r) && |r| <= |s|
  {
    var l := TrimLeft(s);
    var r := TrimRight(l);
    assert r != [] ==> r[0] == l[0] && !IsSpace(l[0]);
    r
  }

  /** What str.strip() keeps is the middle of `s` from some index i, and
      what it drops on either side is all whitespace. */
  lemma StripMiddle(s: string) returns (i: nat)
    ensures i + |Strip(s)| <= |s| && Strip(s) == s[i..i + |Strip(s)|]
    ensures forall j :: 0 <= j < i ==> IsSpace(s[j])
    ensures forall j :: i + |Strip(s)| <= j < |s| ==> IsSpace(s[j])
  {
    var l := TrimLeft(s);
    var r := TrimRight(l);
    i := |s| - |l|;
    assert Strip(s) == r;
    assert l == s[i..] && r == l[..|r|];
    assert s[i..][..|r|] == s[i..i + |r|];
    forall j | i + |r| <= j < |s| ensures IsSpace(s[j]) {
      assert s[j] == l[j - i];
    }
  }

  /** strip() keeps every character that is not whitespace. */
  lemma StripKeepsChar(s: string, j: int)
    requires 0 <= j < |s| && !IsSpace(s[j])
    ensures s[j] in Strip(s)
  {
    var i := StripMiddle(s);
    var n := |Strip(s)|;
    assert i <= j < i + n;
    assert Strip(s)[j - i] == s[j];
  }

  lemma StripStripped(s: string)
    requires IsStripped(s)
    ensures Strip(s) == s
  {
  }

  /** A stripped line read back with its newline strips to itself. */
  lemma StripWithNewline(s: string)
    requires IsStripped(s) && s != []
    ensures Strip(s + "\n") == s
  {
    var t := s + "\n";
    assert t[0] == s[0];
    assert TrimLeft(t) == t;
    assert t[..|t| - 1] == s;
    assert IsSpace(t[|t| - 1]);
    assert TrimRight(t) == TrimRight(s);
    assert TrimRight(s) == s;
  }

  predicate IsDigit(c: char) { '0' <= c <= '9' }

  predicate AllDigits(s: string) { forall i :: 0 <= i < |s| ==> IsDigit(s[i]) }

  function DigitChar(d: nat): (c: char)
    requires d < 10
    ensures IsDigit(c)
  {
    ('0' as int + d) as char
  }

  function DigitValue(c: char): (d: nat)
    requires IsDigit(c)
    ensures d < 10 && DigitChar(d) == c
  {
    (c as int - '0' as int)
  }

  /** Decimal digits of n, most significant first, no leading zero. */
  function NatToString(n: nat): (s: string)
    ensures |s| >= 1 && AllDigits(s)
  {
    if n < 10 then [DigitChar(n)] else NatToString(n / 10) + [DigitChar(n % 10)]
  }

  /** str(n) for an int. */
  function IntToString(n: int): (s: string)
    ensures |s| >= 1 && (AllDigits(s) || (s[0] == '-' && AllDigits(s[1..])))
  {
    if n < 0 then "-" + NatToString(-n) else NatToString(n)
  }

  function DigitsValue(s: string): nat
    requires AllDigits(s)
  {
    if s == [] then 0 else DigitsValue(s[..|s| - 1]) * 10 + DigitValue(s[|s| - 1])
  }

  lemma {:induction false} DigitsOfNat(n: nat)
    ensures DigitsValue(NatToString(n)) == n
  {
    if n >= 10 {
      var p := NatToString(n / 10);
      var s := p + [DigitChar(n % 10)];
      assert s[..|s| - 1] == p && s[|s| - 1] == DigitChar(n % 10);
      DigitsOfNat(n / 10);
      assert DigitsValue(s) == DigitsValue(p) * 10 + n % 10;
    }
  }

  /** int(s) on ASCII text: surrounding whitespace, an optional sign, then
      one or more decimal digits; anything else raises ValueError (None). */
  function ParseInt(s: string): Option<int> {
    ParseSigned(Strip(s))
  }

  /** int(t) for a text without surrounding whitespace. */
  function ParseSigned(t: string): Option<int> {
    if t != [] && (t[0] == '-' || t[0] == '+') then
      if t[1..] != [] && AllDigits(t[1..]) then
        Some(if t[0] == '-' then -(DigitsValue(t[1..]) as int) else DigitsValue(t[1..]))
      else None
    else if t != [] && AllDigits(t) then Some(DigitsValue(t))
    else None
  }

  lemma ParseStripped(s: string)
    requires IsStripped(s)
    ensures ParseInt(s) == ParseSigned(s)
  {
    StripStripped(s);
  }

  lemma NatParses(n: nat, s: string)
    requires s == NatToString(n)
    ensures ParseInt(s) == Some(n)
  {
    ParseStripped(s);
    DigitsOfNat(n);
  }

  lemma NegSigned(d: string, s: string)
    requires d != [] && AllDigits(d) && s == "-" + d
    ensures ParseSigned(s) == Some(-(DigitsValue(d) as int))
  {
    assert s[1..] == d;
  }

  lemma NegParses(n: nat, s: string)
    requires n > 0 && s == "-" + NatToString(n)
    ensures ParseInt(s) == Some(-(n as int))
  {
    var d := NatToString(n);
    assert s[|s| - 1] == d[|d| - 1];
    ParseStripped(s);
    NegSigned(d, s);
    DigitsOfNat(n);
    assert ParseInt(s) == Some(-(DigitsValue(d) as int));
  }

  /** int(str(n)) == n. */
  lemma IntToStringParses(n: int)
    ensures ParseInt(IntToString(n)) == Some(n)
  {
    if n < 0 {
      NegParses(-n, IntToString(n));
    } else {
      NatParses(n, IntToString(n));
    }
  }

  /** A text that starts with a letter other than a sign, a digit or a
      space is never an int. */
  lemma LetterIsNotInt(s: string)
    requires s != [] && !IsSpace(s[0]) && !IsDigit(s[0]) && s[0] != '-' && s[0] != '+'
    ensures ParseInt(s) == None
  {
    assert TrimLeft(s) == s;
    var t := Strip(s);
    if t != [] {
      assert t[0] == s[0];
    }
  }

  predicate StartsWith(s: string, p: string) {
    |p| <= |s| && s[..|p|] == p
  }

  lemma StartsWithTransitive(a: string, b: string, c: string)
    requires StartsWith(a, b) && StartsWith(b, c)
    ensures StartsWith(a, c)
  {
    assert a[..|c|] == a[..|b|][..|c|];
  }

  predicate EndsWith(s: string, p: string) {
    |p| <= |s| && s[|s| - |p|..] == p
  }

  /** s.split(sep): the pieces between occurrences of sep, always at least one. */
  function Split(s: string, sep: char): (parts: seq<string>)
    ensures |parts| >= 1
    ensures forall i :: 0 <= i < |parts| ==> sep !in parts[i]
  {
    if s == [] then [[]]
    else
      var rest := Split(s[1..], sep);
      if s[0] == sep then [[]] + rest else [[s[0]] + rest[0]] + rest[1..]
  }

  /** sep.join(parts). */
  function Join(parts: seq<string>, sep: char): string {
    if parts == [] then []
    else if |parts| == 1 then parts[0]
    else parts[0] + [sep] + Join(parts[1..], sep)
  }

  lemma {:induction false} SplitNoSep(p: string, sep: char)
    requires sep !in p
    ensures Split(p, sep) == [p]
  {
    if p != [] {
      SplitNoSep(p[1..], sep);
      assert [p[0]] + p[1..] == p;
    }
  }

  lemma {:induction false} SplitAfterPiece(p: string, rest: string, sep: char)
    requires sep !in p
    ensures Split(p + [sep] + rest, sep) == [p] + Split(rest, sep)
  {
    if p == [] {
      assert p + [sep] + rest == [sep] + rest;
      assert ([sep] + rest)[1..] == rest;
    } else {
      var t := p + [sep] + rest;
      SplitAfterPiece(p[1..], rest, sep);
      assert t[1..] == p[1..] + [sep] + rest;
      assert t[0] == p[0] && p[0] != sep;
      var r := Split(t[1..], sep);
      assert r == [p[1..]] + Split(rest, sep);
      assert Split(t, sep) == [[p[0]] + r[0]] + r[1..];
      assert [p[0]] + p[1..] == p;
      assert r[1..] == Split(rest, sep);
    }
  }

  /** Splitting a join gives back the pieces, as long as none holds the
      separator. */
  lemma {:induction false} SplitJoin(parts: seq<string>, sep: char)
    requires |parts| >= 1
    requires forall i :: 0 <= i < |parts| ==> sep !in parts[i]
    ensures Split(Join(parts, sep), sep) == parts
  {
    if |parts| == 1 {
      SplitNoSep(parts[0], sep);
    } else {
      SplitJoin(parts[1..], sep);
      SplitAfterPiece(parts[0], Join(parts[1..], sep), sep);
    }
  }

  function IndexOf(s: string, c: char): (i: nat)
    requires c in s
    ensures i < |s| && s[i] == c && c !in s[..i]
  {
    if s[0] == c then 0 else 1 + IndexOf(s[1..], c)
  }

  /** `a, b = s.split(c, 1)`: the text before the first c and the text after
      it; None where the unpacking raises ValueError because c is absent. */
  function SplitOnce(s: string, c: char): (r: Option<(string, string)>)
    ensures r.None? <==> c !in s
    ensures r.Some? ==> r.value.0 + [c] + r.value.1 == s && c !in r.value.0
  {
    if c in s then
      var i := IndexOf(s, c);
      assert s[..i] + [c] + s[i + 1..] == s;
      Some((s[..i], s[i + 1..]))
    else None
  }

  function Concat(ls: seq<string>): string {
    if ls == [] then [] else ls[0] + Concat(ls[1..])
  }

  lemma {:induction false} ConcatAppend(a: seq<string>, b: seq<string>)
    ensures Concat(a + b) == Concat(a) + Concat(b)
  {
    if a != [] {
      assert (a + b)[1..] == a[1..] + b;
      assert (a + b)[0] == a[0];
      assert Concat(a + b) == a[0] + Concat(a[1..] + b);
      assert Concat(a) == a[0] + Concat(a[1..]);
      ConcatAppend(a[1..], b);
      assert a[0] + (Concat(a[1..]) + Concat(b)) == (a[0] + Concat(a[1..])) + Concat(b);
    } else {
      assert a + b == b;
    }
  }

  predicate EndsInNewline(l: string) {
    l != [] && l[|l| - 1] == '\n'
  }

  /** A single line as file iteration yields it: non-empty, and a newline
      can only be its last character. */
  predicate IsLine(l: string) {
    l != [] && forall j :: 0 <= j < |l| - 1 ==> l[j] != '\n'
  }

  /** `for line in f`: the file cut after every newline; every piece but the
      last ends with a newline, and together they are the file. */
  function FileLines(t: string): (ls: seq<string>)
    ensures Concat(ls) == t
    ensures forall i :: 0 <= i < |ls| ==> IsLine(ls[i])
    ensures forall i :: 0 <= i < |ls| - 1 ==> EndsInNewline(ls[i])
  {
    if t == [] then []
    else if t[0] == '\n' then
      var rest := FileLines(t[1..]);
      assert Concat(["\n"] + rest) == "\n" + Concat(rest);
      ["\n"] + rest
    else
      var rest := FileLines(t[1..]);
      if rest == [] then [[t[0]]]
      else
        var ls := [[t[0]] + rest[0]] + rest[1..];
        assert Concat(ls) == [t[0]] + rest[0] + Concat(rest[1..]);
        ls
  }

  /** A line with no newline inside, followed by one, is cut off whole. */
  lemma {:induction false} FileLinesCons(p: string, rest: string)
    requires '\n' !in p
    ensures FileLines(p + "\n" + rest) == [p + "\n"] + FileLines(rest)
  {
    if p == [] {
      assert p + "\n" + rest == "\n" + rest;
      assert ("\n" + rest)[1..] == rest;
    } else {
      FileLinesCons(p[1..], rest);
      assert (p + "\n" + rest)[1..] == p[1..] + "\n" + rest;
      assert [p[0]] + (p[1..] + "\n") == p + "\n";
    }
  }

  /** Reading a concatenation of whole lines gives those lines back. */
  lemma {:induction false} FileLinesOfConcat(ls: seq<string>)
    requires forall i :: 0 <= i < |ls| ==> IsLine(ls[i])
    requires forall i :: 0 <= i < |ls| - 1 ==> EndsInNewline(ls[i])
    ensures FileLines(Concat(ls)) == ls
  {
    if ls != [] {
      FileLinesOfConcat(ls[1..]);
      var l := ls[0];
      if |ls| == 1 {
        assert Concat(ls) == l;
        FileLinesNoNewline(l);
      } else {
        var p := l[..|l| - 1];
        assert l == p + "\n";
        assert '\n' !in p by {
          forall j | 0 <= j < |p| ensures p[j] != '\n' { assert p[j] == l[j]; }
        }
        FileLinesCons(p, Concat(ls[1..]));
      }
    }
  }

  /** The last line of a file, when it has no newline inside, comes back whole. */
  lemma {:induction false} FileLinesNoNewline(l: string)
    requires IsLine(l)
    ensures FileLines(l) == [l]
  {
    if |l| == 1 {
      assert [l[0]] == l;
      assert FileLines(l[1..]) == [];
    } else {
      FileLinesNoNewline(l[1..]);
      assert [l[0]] + l[1..] == l;
    }
  }

  /** `[line.strip() for line in lines if line.strip()]`. */
  function NonBlank(lines: seq<string>): (r: seq<string>)
    ensures |r| <= |lines|
    ensures forall i :: 0 <= i < |r| ==> r[i] != [] && IsStripped(r[i])
  {
    if lines == [] then []
    else if Strip(lines[0]) == [] then NonBlank(lines[1..])
    else [Strip(lines[0])] + NonBlank(lines[1..])
  }

  /** The keys read are the non-empty stripped lines. */
  lemma {:induction false} NonBlankMembers(lines: seq<string>, x: string)
    ensures x in NonBlank(lines) <==> x != [] && exists l :: l in lines && Strip(l) == x
  {
    if lines != [] {
      NonBlankMembers(lines[1..], x);
      assert forall l :: l in lines <==> l == lines[0] || l in lines[1..];
    }
  }

  /** The stripped, non-blank lines of a text file. */
  function ReadStripped(t: string): (r: seq<string>)
    ensures forall i :: 0 <= i < |r| ==> r[i] != [] && IsStripped(r[i]) && '\n' !in r[i]
  {
    var r := NonBlank(FileLines(t));
    NonBlankHasNoNewline(FileLines(t));
    r
  }

  /** A line read from a file holds no newline once stripped: only its last
      character may be one, and strip() drops it. */
  lemma StripHasNoNewline(l: string)
    requires IsLine(l)
    ensures '\n' !in Strip(l)
  {
    var s := Strip(l);
    if s != [] {
      var i := StripMiddle(l);
      assert IsSpace('\n');
      forall k | 0 <= k < |s| ensures s[k] != '\n' {
        if k < |s| - 1 {
          assert s[k] == l[i + k];
        }
      }
    }
  }

  lemma {:induction false} NonBlankHasNoNewline(lines: seq<string>)
    requires forall i :: 0 <= i < |lines| ==> IsLine(lines[i])
    ensures forall i :: 0 <= i < |NonBlank(lines)| ==> '\n' !in NonBlank(lines)[i]
  {
    if lines != [] {
      NonBlankHasNoNewline(lines[1..]);
      StripHasNoNewline(lines[0]);
    }
  }

  /** `"\n".join(lines) + ("\n" if lines else "")`. */
  function Render(lines: seq<string>): string {
    Join(lines, '\n') + (if lines != [] then "\n" else "")
  }

  lemma RenderCons(lines: seq<string>)
    requires lines != []
    ensures Render(lines) == lines[0] + "\n" + Render(lines[1..])
  {
  }

  /** A rewritten queue file ends with a newline exactly when it holds a
      line, and re-reading it gives back exactly the lines written. */
  lemma {:induction false} RenderReadBack(lines: seq<string>)
    requires forall i :: 0 <= i < |lines| ==> lines[i] != [] && IsStripped(lines[i]) && '\n' !in lines[i]
    ensures ReadStripped(Render(lines)) == lines
    ensures (Render(lines) != [] && Render(lines)[|Render(lines)| - 1] == '\n') <==> lines != []
  {
    if lines != [] {
      RenderReadBack(lines[1..]);
      RenderCons(lines);
      FileLinesCons(lines[0], Render(lines[1..]));
      StripWithNewline(lines[0]);
    }
  }

  /** os.path.join(a, b) on POSIX: an absolute b replaces a, otherwise a
      single slash separates them. */
  function PathJoin(a: string, b: string): (p: string)
    ensures EndsWith(p, b)
  {
    if b != [] && b[0] == '/' then b
    else if a == [] || a[|a| - 1] == '/' then a + b
    else a + "/" + b
  }

  /** os.path.basename: what follows the last slash. */
  function Basename(p: string): (b: string)
    ensures '/' !in b && EndsWith(p, b)
  {
    if p == [] then []
    else if p[|p| - 1] == '/' then []
    else Basename(p[..|p| - 1]) + [p[|p| - 1]]
  }

  /** s.replace(pat, rep) (every non-overlapping occurrence, left to right). */
  function ReplaceAll(s: string, pat: string, rep: string): string
    requires pat != []
  {
    if |s| < |pat| then s
    else if s[..|pat|] == pat then rep + ReplaceAll(s[|pat|..], pat, rep)
    else [s[0]] + ReplaceAll(s[1..], pat, rep)
  }

  /** str.lower() on ASCII letters. */
  function LowerAscii(s: string): (r: string)
    ensures |r| == |s|
  {
    if s == [] then []
    else [if 'A' <= s[0] <= 'Z' then (s[0] as int + 32) as char else s[0]] + LowerAscii(s[1..])
  }
}
