/** The two readers of INI text, `parse_ini` of src/config.rs and `parse_user_ini` of
    tools/ini_merge.py, and how the meaning of a text is made up of that of its lines. */
module Ini {
  import opened Wire

  // ------------------------------------------------------------------ strings

  // Where Python's `str` and Rust's `str` break and trim ASCII text. Python's universal
  // newlines have a say too; see `Universal`.

  predicate PyBreak(c: char) { '\n' <= c <= '\r' || '\U{1C}' <= c <= '\U{1E}' }
  predicate RustBreak(c: char) { c == '\n' }
  predicate PySpace(c: char) { '\t' <= c <= '\r' || '\U{1C}' <= c <= ' ' }
  predicate RustSpace(c: char) { '\t' <= c <= '\r' || c == ' ' }

  /** An ASCII character that the two programs treat alike. */
  predicate Agreed(c: char) {
    c < '\U{80}' && PyBreak(c) == RustBreak(c) && PySpace(c) == RustSpace(c)
  }

  /** They differ on CR, VT and FF and on the four separators FS, GS, RS, US, and on no
      other ASCII character; what is not a line break and both trim is tab and space. */
  lemma CharsAgree(c: char)
    requires c < '\U{80}'
    ensures Agreed(c) <==> !('\U{0B}' <= c <= '\r') && !('\U{1C}' <= c <= '\U{1F}')
    ensures Agreed(c) && c != '\n' ==> (Space(c) <==> PySpace(c)) && (Space(c) <==> RustSpace(c)) && !PyBreak(c)
  {}

  predicate Plain(s: string) { forall c <- s :: Agreed(c) }

  type Text = s: string | Plain(s) witness ""

  predicate Space(c: char) { c == ' ' || c == '\t' }

  predicate Blank(s: string) { forall c <- s :: Space(c) }

  function TrimLeft(s: string): string {
    if s != "" && Space(s[0]) then TrimLeft(s[1..]) else s
  }

  function TrimRight(s: string): (r: string)
    ensures r <= s
  {
    if s != "" && Space(s[|s| - 1]) then TrimRight(s[..|s| - 1]) else s
  }

  function Trim(s: string): string { TrimRight(TrimLeft(s)) }

  /** Neither end is a blank. */
  predicate Tight(s: string) { s == "" || (!Space(s[0]) && !Space(s[|s| - 1])) }

  function LowerChar(c: char): char { if 'A' <= c <= 'Z' then c - 'A' + 'a' else c }

  function Lower(s: string): (r: string)
    ensures |r| == |s|
    ensures forall i :: 0 <= i < |s| ==> r[i] == LowerChar(s[i])
  {
    if s == "" then "" else [LowerChar(s[0])] + Lower(s[1..])
  }

  /** The first position of `c`, or the length. */
  function IndexOf(s: string, c: char): (i: nat)
    ensures i <= |s| && c !in s[..i] && (i < |s| ==> s[i] == c)
  {
    if s == "" || s[0] == c then 0 else 1 + IndexOf(s[1..], c)
  }

  predicate Marks(c: char) { c == ';' || c == '#' }

  function CommentAt(s: string): (i: nat)
    ensures i <= |s| && (forall j :: 0 <= j < i ==> !Marks(s[j])) && (i < |s| ==> Marks(s[i]))
  {
    if s == "" || Marks(s[0]) then 0 else 1 + CommentAt(s[1..])
  }

  /** Everything before the first `;` or `#`. */
  function Cut(s: string): string { s[..CommentAt(s)] }

  // -------------------------------------------------------------- the parsers

  datatype Setting = Setting(key: string, value: string)

  predicate Skipped(trimmed: string) {
    trimmed == "" || Marks(trimmed[0]) || trimmed[0] == '['
  }

  /** One line as `parse_ini` reads it. */
  function IniLine(line: string): Option<Setting> {
    var l := Trim(line);
    if Skipped(l) then None else
    var i := IndexOf(l, '=');
    if i == |l| then None else Some(Setting(Lower(Trim(l[..i])), Trim(Cut(l[i + 1..]))))
  }

  /** `INLINE_COMMENT`: the first marker with the blanks before it, to the end. */
  function InlineAt(s: string): nat {
    if CommentAt(s) == |s| then |s| else |TrimRight(Cut(s))|
  }

  function StripInlineComment(s: string): string
  {
    TrimmedWithin(s);
    Trim(s[..InlineAt(s)])
  }

  lemma TrimmedWithin(s: string)
    ensures InlineAt(s) <= |s|
  {}

  /** One line as `parse_user_ini` reads it. */
  function UserLine(line: string): Option<Setting> {
    var l := Trim(line);
    if Skipped(l) then None else
    if '=' !in l then None else
    var i := IndexOf(l, '=');
    if i == |l| then None else Some(Setting(Lower(Trim(l[..i])), StripInlineComment(l[i + 1..])))
  }

  function Put(m: map<string, string>, s: Option<Setting>): map<string, string> {
    if s.None? then m else m[s.value.key := s.value.value]
  }

  /** All settings of some lines; the last one of a key wins. */
  function Meaning(lines: seq<string>): map<string, string> {
    if lines == [] then map[] else Put(Meaning(lines[..|lines| - 1]), IniLine(lines[|lines| - 1]))
  }

  /** Lines end at a newline; a final newline ends the last line. */
  function SplitLines(s: string): seq<string> {
    if s == "" then [] else
    var i := IndexOf(s, '\n');
    if i == |s| then [s] else [s[..i]] + SplitLines(s[i + 1..])
  }

  function MeaningOf(text: string): map<string, string> { Meaning(SplitLines(text)) }

  // ------------------------------------------------------------------- files

  /** Files hold agreed characters, and a CR only before an LF. */
  predicate CrBeforeLf(s: string) {
    forall i :: 0 <= i < |s| && s[i] == '\r' ==> i + 1 < |s| && s[i + 1] == '\n'
  }

  predicate FilePlain(s: string) { CrBeforeLf(s) && forall c <- s :: c == '\r' || Agreed(c) }

  type File = s: string | FilePlain(s) witness ""

  /** What Python's `open` in text mode reads: CR LF, or a CR alone, becomes an LF. */
  function Universal(s: string): string {
    if s == "" then ""
    else if s[0] == '\r' then "\n" + Universal(if |s| > 1 && s[1] == '\n' then s[2..] else s[1..])
    else [s[0]] + Universal(s[1..])
  }

  function ChopCr(l: string): string { if l != "" && l[|l| - 1] == '\r' then l[..|l| - 1] else l }

  /** Rust's `lines`: a line ends at LF or CR LF. */
  function RustLines(s: string): seq<string> {
    if s == "" then [] else
    var i := IndexOf(s, '\n');
    if i == |s| then [s] else [ChopCr(s[..i])] + RustLines(s[i + 1..])
  }

  lemma {:induction false} UniversalHead(l: string, rest: string)
    requires '\r' !in l
    ensures Universal(l + rest) == l + Universal(rest)
  {
    if l == "" {
      assert l + rest == rest;
    } else {
      assert l[0] in l;
      assert (l + rest)[1..] == l[1..] + rest;
      UniversalHead(l[1..], rest);
    }
  }

  lemma UniversalBreak(rest: string)
    ensures Universal("\n" + rest) == "\n" + Universal(rest)
    ensures Universal("\r\n" + rest) == "\n" + Universal(rest)
  {
    assert ("\n" + rest)[1..] == rest;
    assert ("\r\n" + rest)[2..] == rest;
    assert "\n" + Universal(rest) == ['\n'] + Universal(rest);
  }

  /** The line before the line break at `i`. */
  lemma ChoppedLine(s: string, i: nat)
    requires CrBeforeLf(s) && i < |s| && s[i] == '\n' && '\n' !in s[..i]
    ensures var l := ChopCr(s[..i]);
      '\n' !in l && '\r' !in l && (s[..i] == l || s[..i] == l + "\r")
  {
    var l := ChopCr(s[..i]);
    forall j | 0 <= j < |l|
      ensures l[j] != '\r' && l[j] != '\n'
    {
      assert s[..i][j] == l[j] == s[j];
      if j + 1 < i {
        assert s[..i][j + 1] in s[..i];
      }
    }
  }

  lemma TailBeforeLf(s: string, i: nat)
    requires CrBeforeLf(s) && i <= |s|
    ensures CrBeforeLf(s[i..])
  {
    forall j | 0 <= j < |s[i..]| && s[i..][j] == '\r'
      ensures j + 1 < |s[i..]| && s[i..][j + 1] == '\n'
    {
      assert s[i + j] == '\r';
    }
  }

  lemma BreakAfter(s: string, i: nat, l: string)
    requires i < |s| && s[i] == '\n' && (s[..i] == l || s[..i] == l + "\r")
    ensures s == l + ("\n" + s[i + 1..]) || s == l + ("\r\n" + s[i + 1..])
  {
    assert s == s[..i] + ("\n" + s[i + 1..]);
    if s[..i] == l + "\r" {
      assert s == l + ("\r\n" + s[i + 1..]);
    }
  }

  lemma FirstLine(s: string) returns (l: string, rest: string)
    requires CrBeforeLf(s) && '\n' in s
    ensures '\n' !in l && '\r' !in l && |rest| < |s| && CrBeforeLf(rest)
    ensures s == l + ("\n" + rest) || s == l + ("\r\n" + rest)
    ensures RustLines(s) == [l] + RustLines(rest)
  {
    var i := IndexOf(s, '\n');
    assert i < |s| by {
      assert s == s[..i] + s[i..];
    }
    l, rest := ChopCr(s[..i]), s[i + 1..];
    hide ChopCr, CrBeforeLf, IndexOf;
    ChoppedLine(s, i);
    TailBeforeLf(s, i + 1);
    BreakAfter(s, i, l);
  }

  /** Both programs find the same lines in a file, with either kind of line end. */
  lemma {:induction false} SameLines(s: string)
    requires CrBeforeLf(s)
    ensures RustLines(s) == SplitLines(Universal(s)) && '\r' !in Universal(s)
    decreases |s|
  {
    hide RustLines, Universal, SplitLines;
    if '\n' in s {
      var l, rest := FirstLine(s);
      SameLines(rest);
      UniversalHead(l, "\n" + rest);
      UniversalHead(l, "\r\n" + rest);
      UniversalBreak(rest);
      SplitFirst(l, Universal(rest));
      assert l + ("\n" + Universal(rest)) == l + "\n" + Universal(rest);
    } else {
      OneLineFile(s);
    }
  }

  lemma OneLineFile(s: string)
    requires CrBeforeLf(s) && '\n' !in s
    ensures RustLines(s) == SplitLines(s) && Universal(s) == s && '\r' !in s
  {
    forall i | 0 <= i < |s|
      ensures s[i] != '\r'
    {
      if i + 1 < |s| {
        assert s[i + 1] in s;
      }
    }
    UniversalHead(s, "");
    assert s + "" == s;
    assert s[..|s|] == s;
  }

  lemma {:induction false} UniversalKeeps(s: string)
    ensures forall c <- Universal(s) :: c == '\n' || c in s
    decreases |s|
  {
    if s != "" {
      UniversalKeeps(s[1..]);
      if s[0] == '\r' && |s| > 1 && s[1] == '\n' {
        UniversalKeeps(s[2..]);
      }
    }
  }

  /** What is read of a file is plain text. */
  lemma ReadIsText(f: File)
    ensures Plain(Universal(f)) && '\r' !in Universal(f)
  {
    UniversalKeeps(f);
    SameLines(f);
  }

  /** `parse_ini` on the text of a file. */
  method ParseIni(text: File) returns (m: map<string, string>)
    ensures m == MeaningOf(Universal(text))
  {
    hide Trim, Cut, Lower, RustLines, Universal, SplitLines, CommentAt;
    m := map[];
    SameLines(text);
    var lines := RustLines(text);
    for i := 0 to |lines|
      invariant m == Meaning(lines[..i])
    {
      assert lines[..i + 1][..i] == lines[..i];
      var line := Trim(lines[i]);
      if line == "" || line[0] == ';' || line[0] == '#' || line[0] == '[' {
        continue;
      }
      var eq := IndexOf(line, '=');
      if eq < |line| {
        var v := Trim(Cut(line[eq + 1..]));
        m := m[Lower(Trim(line[..eq])) := v];
      }
    }
    assert lines[..|lines|] == lines;
  }

  // -------------------------------------------------------- string lemmas

  lemma {:induction false} TrimRightIdem(s: string)
    ensures TrimRight(TrimRight(s)) == TrimRight(s)
    ensures Trim(TrimRight(s)) == Trim(s)
  {
    if s != "" && Space(s[|s| - 1]) {
      TrimRightIdem(s[..|s| - 1]);
      TrimDropsLast(s);
    }
  }

  /** A trailing blank does not matter to `Trim`. */
  lemma {:induction false} TrimDropsLast(s: string)
    requires s != "" && Space(s[|s| - 1])
    ensures Trim(s) == Trim(s[..|s| - 1])
  {
    var t := s[..|s| - 1];
    if Space(s[0]) {
      if |s| > 1 {
        TrimDropsLast(s[1..]);
        assert s[1..][..|s| - 2] == t[1..];
      }
    } else {
      assert TrimLeft(s) == s && TrimLeft(t) == t;
    }
  }

  /** The two readings of a value and of a line agree. */
  lemma ValuesAgree(s: string)
    ensures StripInlineComment(s) == Trim(Cut(s))
  {
    var c := CommentAt(s);
    if c < |s| {
      assert s[..InlineAt(s)] == TrimRight(Cut(s));
      TrimRightIdem(Cut(s));
    } else {
      assert s[..c] == s;
    }
  }

  lemma LinesAgree(line: string)
    ensures UserLine(line) == IniLine(line)
  {
    var l := Trim(line);
    var i := IndexOf(l, '=');
    assert '=' in l <==> i < |l| by {
      assert l == l[..i] + l[i..];
    }
    if i < |l| {
      ValuesAgree(l[i + 1..]);
    }
  }

  /** `parse_user_ini`, on what was read of a file. */
  method ParseUserIni(text: Text) returns (values: map<string, string>)
    ensures values == MeaningOf(text)
  {
    hide Trim, Lower, StripInlineComment, SplitLines, CommentAt;
    values := map[];
    var lines := SplitLines(text);
    for i := 0 to |lines|
      invariant values == Meaning(lines[..i])
    {
      assert lines[..i + 1][..i] == lines[..i];
      LinesAgree(lines[i]);
      var line := Trim(lines[i]);
      if line == "" || line[0] == ';' || line[0] == '#' || line[0] == '[' {
        continue;
      }
      if '=' !in line {
        continue;
      }
      var eq := IndexOf(line, '=');
      assert eq < |line| by {
        assert line == line[..eq] + line[eq..];
      }
      values := values[Lower(Trim(line[..eq])) := StripInlineComment(line[eq + 1..])];
    }
    assert lines[..|lines|] == lines;
  }

  // ------------------------------------------------------- meanings compose

  lemma {:induction false} MeaningAppend(a: seq<string>, b: seq<string>)
    ensures Meaning(a + b) == Meaning(a) + Meaning(b)
  {
    hide IniLine;
    if b == [] {
      assert a + b == a;
    } else {
      MeaningAppend(a, b[..|b| - 1]);
      assert (a + b)[..|a + b| - 1] == a + b[..|b| - 1];
    }
  }

  lemma MeaningOne(line: string)
    ensures Meaning([line]) == Put(map[], IniLine(line))
  {
    hide IniLine;
    assert [line][..0] == [];
  }

  lemma BlankLine()
    ensures IniLine("") == None
  {}

  lemma SplitFirst(l: string, rest: string)
    requires '\n' !in l
    ensures SplitLines(l + "\n" + rest) == [l] + SplitLines(rest)
  {
    var s := l + "\n" + rest;
    NewlineAt(l, rest);
    assert s[..|l|] == l && s[|l| + 1..] == rest;
  }

  lemma {:induction false} NewlineAt(l: string, rest: string)
    requires '\n' !in l
    ensures IndexOf(l + "\n" + rest, '\n') == |l|
  {
    if l != "" {
      NewlineAt(l[1..], rest);
      assert (l + "\n" + rest)[1..] == l[1..] + "\n" + rest;
    }
  }

  lemma HeadMeans(l: string, rest: string)
    requires '\n' !in l
    ensures MeaningOf(l + "\n" + rest) == Meaning([l]) + MeaningOf(rest)
  {
    SplitFirst(l, rest);
    MeaningAppend([l], SplitLines(rest));
  }

  lemma Override(a: map<string, string>, b: map<string, string>, c: map<string, string>)
    ensures (a + b) + c == a + (b + c)
  {}

  /** The text of two parts with a newline between means the first part overridden by
      the second. */
  lemma {:induction false} TextAppend(a: string, b: string)
    ensures MeaningOf(a + "\n" + b) == MeaningOf(a) + MeaningOf(b)
    decreases |a|
  {
    hide IniLine, MeaningOf, Meaning;
    var i := IndexOf(a, '\n');
    if i == |a| {
      assert a[..i] == a;
      HeadMeans(a, b);
      LineMeans(a);
    } else {
      var l, rest := a[..i], a[i + 1..];
      assert a == l + "\n" + rest;
      assert a + "\n" + b == l + "\n" + (rest + "\n" + b);
      HeadMeans(l, rest);
      HeadMeans(l, rest + "\n" + b);
      TextAppend(rest, b);
      Override(Meaning([l]), MeaningOf(rest), MeaningOf(b));
    }
  }

  function Join(lines: seq<string>): string {
    if lines == [] then "" else if |lines| == 1 then lines[0]
    else lines[0] + "\n" + Join(lines[1..])
  }

  predicate OneLine(s: string) { '\n' !in s && '\r' !in s }

  lemma {:induction false} JoinMeans(lines: seq<string>)
    requires forall l <- lines :: OneLine(l)
    ensures MeaningOf(Join(lines)) == Meaning(lines)
  {
    hide IniLine;
    if lines != [] {
      var l, rest := lines[0], lines[1..];
      assert [l] + rest == lines && l in lines;
      MeaningAppend([l], rest);
      LineMeans(l);
      if rest != [] {
        JoinMeans(rest);
        TextAppend(l, Join(rest));
      } else {
        assert lines == [l];
      }
    }
  }

  lemma LineMeans(l: string)
    requires '\n' !in l
    ensures MeaningOf(l) == Meaning([l])
  {
    var i := IndexOf(l, '\n');
    assert i == |l|;
    MeaningOne(l);
    if l == "" {
      BlankLine();
    }
  }

  function StripNewlines(s: string): string {
    if s != "" && s[|s| - 1] == '\n' then StripNewlines(s[..|s| - 1]) else s
  }

  lemma {:induction false} StripMeans(s: string)
    ensures MeaningOf(StripNewlines(s)) == MeaningOf(s)
  {
    hide IniLine;
    if s != "" && s[|s| - 1] == '\n' {
      var t := s[..|s| - 1];
      StripMeans(t);
      TextAppend(t, "");
      assert s == t + "\n" + "";
      assert MeaningOf("") == map[];
    }
  }
}
