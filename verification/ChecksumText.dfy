/** The inner checksum file of a Hero bundle, and the verifier's reading of it. */
module ChecksumText {
  import opened Json

  /** The characters at which Python's splitlines ends a line. */
  predicate IsBreak(c: char) {
    var n := c as int;
    10 <= n <= 13 || 28 <= n <= 30 || n == 133 || n == 8232 || n == 8233
  }

  predicate OneLine(s: string) {
    forall i | 0 <= i < |s| :: !IsBreak(s[i])
  }

  /** splitlines, with the line read so far; a carriage return and a line feed are one break. */
  function SplitLines(s: string, line: string): seq<string>
    decreases |s|
  {
    if s == "" then if line == "" then [] else [line]
    else if IsBreak(s[0]) then
      [line] + SplitLines(if s[0] == '\r' && |s| > 1 && s[1] == '\n' then s[2..] else s[1..], "")
    else SplitLines(s[1..], line + [s[0]])
  }

  /** line.split("  ", 1): what comes before and after the first double space. */
  datatype Cut = NoCut | Cut(before: string, after: string)

  function CutOnce(line: string): Cut {
    if |line| < 2 then NoCut
    else if line[0] == ' ' && line[1] == ' ' then Cut("", line[2..])
    else match CutOnce(line[1..])
      case NoCut => NoCut
      case Cut(b, a) => Cut([line[0]] + b, a)
  }

  predicate IsDigest(d: string) {
    |d| == 64 && forall i | 0 <= i < 64 :: '0' <= d[i] <= '9' || 'a' <= d[i] <= 'f'
  }

  function Components(name: string, part: string): seq<string>
    decreases |name|
  {
    if name == "" then [part]
    else if name[0] == '/' then [part] + Components(name[1..], "")
    else Components(name[1..], part + [name[0]])
  }

  /** A relative path with no backslash and no parent component; empty and dot components are dropped unseen. */
  predicate Safe(name: string) {
    name != "" && '\\' !in name && name[0] != '/' && ".." !in Components(name, "")
  }

  datatype Entry = Entry(name: string, digest: string)

  function Line(e: Entry): string {
    e.digest + "  ./" + e.name
  }

  /** The text the builder writes, one line per file. */
  function InnerSums(es: seq<Entry>): string {
    if es == [] then "" else Line(es[0]) + "\n" + InnerSums(es[1..])
  }

  function Strip(name: string): string {
    if |name| >= 2 && name[..2] == "./" then name[2..] else name
  }

  /** One line as the verifier reads it; None means it raises. */
  function ReadLine(line: string): Option<Entry> {
    match CutOnce(line)
    case NoCut => None
    case Cut(digest, rest) =>
      var name := Strip(rest);
      if Safe(name) && IsDigest(digest) then Some(Entry(name, digest)) else None
  }

  predicate Named(es: seq<Entry>, name: string) {
    exists e | e in es :: e.name == name
  }

  function ReadLines(lines: seq<string>): Option<seq<Entry>> {
    if lines == [] then Some([])
    else
      var n := |lines| - 1;
      match (ReadLines(lines[..n]), ReadLine(lines[n]))
      case (Some(es), Some(e)) => if Named(es, e.name) then None else Some(es + [e])
      case _ => None
  }

  function ReadSums(text: string): Option<seq<Entry>> {
    ReadLines(SplitLines(text, ""))
  }

  /** A finite map of names to digests, in the order it is written. */
  predicate IsMap(es: seq<Entry>) {
    (forall i, j | 0 <= i < j < |es| :: es[i].name != es[j].name) && forall e | e in es :: IsDigest(e.digest)
  }

  /******* Lines *******/

  lemma {:induction false} ReadToBreak(s: string, line: string, rest: string)
    requires OneLine(s)
    ensures SplitLines(s + "\n" + rest, line) == [line + s] + SplitLines(rest, "")
    decreases |s|
  {
    var t := s + "\n" + rest;
    if s == "" {
      assert t == "\n" + rest && line + s == line;
      assert IsBreak('\n') && t[1..] == rest;
    } else {
      assert t[1..] == s[1..] + "\n" + rest && line + [s[0]] + s[1..] == line + s;
      ReadToBreak(s[1..], line + [s[0]], rest);
    }
  }

  lemma {:induction false} LinesAreOneLine(s: string, line: string)
    requires OneLine(line)
    ensures forall l | l in SplitLines(s, line) :: OneLine(l)
    decreases |s|
  {
    if s == "" {
    } else if IsBreak(s[0]) {
      LinesAreOneLine(if s[0] == '\r' && |s| > 1 && s[1] == '\n' then s[2..] else s[1..], "");
    } else {
      LinesAreOneLine(s[1..], line + [s[0]]);
    }
  }

  lemma {:induction false} CutAfter(d: string, rest: string)
    requires ' ' !in d
    ensures CutOnce(d + "  " + rest) == Cut(d, rest)
  {
    var t := d + "  " + rest;
    if d == "" {
      assert t == "  " + rest && t[2..] == rest;
    } else {
      assert t[1..] == d[1..] + "  " + rest;
      CutAfter(d[1..], rest);
      assert [d[0]] + d[1..] == d;
    }
  }

  lemma {:induction false} CutIsPart(line: string)
    ensures match CutOnce(line) case NoCut => true case Cut(b, a) => line == b + "  " + a
  {
    if |line| >= 2 && !(line[0] == ' ' && line[1] == ' ') {
      CutIsPart(line[1..]);
      match CutOnce(line[1..])
      case NoCut =>
      case Cut(b, a) =>
        assert line == [line[0]] + line[1..];
        assert [line[0]] + (b + "  " + a) == [line[0]] + b + "  " + a;
    } else if |line| >= 2 {
      assert line == "  " + line[2..];
    }
  }

  lemma LineIsOneLine(e: Entry)
    requires IsDigest(e.digest) && OneLine(e.name)
    ensures OneLine(Line(e)) && ' ' !in e.digest
  {
    var l := Line(e);
    forall i | 0 <= i < |l| ensures !IsBreak(l[i]) {
      if i < 64 { assert l[i] == e.digest[i]; }
      else if i >= 68 { assert l[i] == e.name[i - 68]; }
    }
  }

  /** A written line reads back as its entry, whatever double spaces or leading dots the name has. */
  lemma ReadWrittenLine(e: Entry)
    requires IsDigest(e.digest)
    ensures ReadLine(Line(e)) == if Safe(e.name) then Some(e) else None
  {
    assert ' ' !in e.digest;
    assert Line(e) == e.digest + "  " + ("./" + e.name);
    CutAfter(e.digest, "./" + e.name);
    assert ("./" + e.name)[..2] == "./" && ("./" + e.name)[2..] == e.name;
    hide CutOnce, Safe, IsDigest;
  }

  lemma {:induction false} LinesOfSums(es: seq<Entry>)
    requires forall e | e in es :: IsDigest(e.digest) && OneLine(e.name)
    ensures var ls := SplitLines(InnerSums(es), ""); |ls| == |es| && forall i | 0 <= i < |es| :: ls[i] == Line(es[i])
    decreases |es|
  {
    hide SplitLines, IsDigest, OneLine, Line;
    if es == [] {
      NoLines();
    } else {
      assert es[0] in es;
      LineIsOneLine(es[0]);
      ReadToBreak(Line(es[0]), "", InnerSums(es[1..]));
      assert "" + Line(es[0]) == Line(es[0]);
      LinesOfSums(es[1..]);
    }
  }

  lemma NoLines()
    ensures SplitLines("", "") == []
  {
  }

  lemma {:induction false} ReadWrittenLines(es: seq<Entry>, lines: seq<string>)
    requires IsMap(es) && (forall e | e in es :: Safe(e.name))
    requires |lines| == |es| && forall i | 0 <= i < |es| :: lines[i] == Line(es[i])
    ensures ReadLines(lines) == Some(es)
  {
    hide ReadLine, Line, Safe, IsDigest;
    if es != [] {
      var n := |es| - 1;
      assert es == es[..n] + [es[n]] && es[n] in es;
      ReadWrittenLines(es[..n], lines[..n]);
      ReadWrittenLine(es[n]);
    }
  }

  lemma LineNamesAreClean(line: string)
    requires OneLine(line) && ReadLine(line).Some?
    ensures Safe(ReadLine(line).value.name) && OneLine(ReadLine(line).value.name)
  {
    CutIsPart(line);
    var d, a := CutOnce(line).before, CutOnce(line).after;
    forall i | 0 <= i < |a| ensures !IsBreak(a[i]) { assert line[|d| + 2 + i] == a[i]; }
    hide CutOnce, Safe, IsDigest;
  }

  lemma {:induction false} ReadNamesAreClean(lines: seq<string>)
    requires ReadLines(lines).Some? && forall l | l in lines :: OneLine(l)
    ensures forall e | e in ReadLines(lines).value :: Safe(e.name) && OneLine(e.name)
  {
    hide ReadLine, OneLine, Safe;
    if lines != [] {
      var n := |lines| - 1;
      assert lines == lines[..n] + [lines[n]];
      ReadNamesAreClean(lines[..n]);
      LineNamesAreClean(lines[n]);
    }
  }

  /**
   The checksum text undoes itself: reading what was written for any map of names gives
   exactly that map, in order, if and only if every name is a safe path without a line
   break.  Double spaces and a leading "./" in a name do no harm.
   */
  lemma SumsRoundTrip(es: seq<Entry>)
    requires IsMap(es)
    ensures ReadSums(InnerSums(es)) == Some(es) <==> forall e | e in es :: Safe(e.name) && OneLine(e.name)
  {
    hide SplitLines, ReadLines, Safe, OneLine, IsDigest, InnerSums;
    if forall e | e in es :: Safe(e.name) && OneLine(e.name) {
      LinesOfSums(es);
      ReadWrittenLines(es, SplitLines(InnerSums(es), ""));
    }
    if ReadSums(InnerSums(es)) == Some(es) {
      NothingIsOneLine();
      LinesAreOneLine(InnerSums(es), "");
      ReadNamesAreClean(SplitLines(InnerSums(es), ""));
    }
  }

  lemma NothingIsOneLine()
    ensures OneLine("")
  {
  }

  /** What the text says is the map: two maps with one text are one map. */
  lemma SumsAreInjective(es: seq<Entry>, fs: seq<Entry>)
    requires IsMap(es) && IsMap(fs) && InnerSums(es) == InnerSums(fs)
    requires forall e | e in es + fs :: Safe(e.name) && OneLine(e.name)
    ensures es == fs
  {
    hide Safe, OneLine, InnerSums, ReadSums, IsMap;
    forall e | e in es ensures Safe(e.name) && OneLine(e.name) { assert e in es + fs; }
    forall e | e in fs ensures Safe(e.name) && OneLine(e.name) { assert e in es + fs; }
    SumsRoundTrip(es);
    SumsRoundTrip(fs);
  }

  /** The verifier's loop over the lines. */
  method ParseSums(text: string) returns (res: Option<seq<Entry>>)
    ensures res == ReadSums(text)
  {
    hide ReadLine, SplitLines;
    var lines := SplitLines(text, "");
    var sums: seq<Entry> := [];
    for i := 0 to |lines|
      invariant ReadLines(lines[..i]) == Some(sums)
    {
      assert lines[..i + 1][..i] == lines[..i];
      var e := ReadLine(lines[i]);
      if e.None? || Named(sums, e.value.name) {
        BadLineFails(lines, i + 1);
        return None;
      }
      sums := sums + [e.value];
    }
    assert lines[..|lines|] == lines;
    return Some(sums);
  }

  lemma {:induction false} BadLineFails(lines: seq<string>, i: nat)
    requires i <= |lines| && ReadLines(lines[..i]).None?
    ensures ReadLines(lines).None?
    decreases |lines|
  {
    hide ReadLine, Named;
    if i == |lines| {
      assert lines[..i] == lines;
    } else {
      assert lines[..|lines| - 1][..i] == lines[..i];
      BadLineFails(lines[..|lines| - 1], i);
    }
  }
}
