/** The template merge of tools/ini_merge.py, and what each line it emits means. */
module Migrate {
  import opened Wire
  import opened Ini

  const KNOWN_KEYS: set<string> := {
    "host", "port", "localport", "proto", "tcprole", "peercheck", "allow", "udpportfallback",
    "connecttimeout", "accepttimeout", "channels", "log"}

  // ------------------------------------------------------------- the template

  function Spaces(s: string): (n: nat)
    ensures n <= |s| && Blank(s[..n]) && (n < |s| ==> !Space(s[n]))
  {
    if s != "" && Space(s[0]) then 1 + Spaces(s[1..]) else 0
  }

  predicate IdentStart(c: char) { 'a' <= c <= 'z' || 'A' <= c <= 'Z' || c == '_' }
  predicate IdentPart(c: char) { IdentStart(c) || '0' <= c <= '9' }

  function WordEnd(s: string): (n: nat)
    ensures n <= |s| && forall i :: 0 <= i < n ==> IdentPart(s[i])
    ensures n < |s| ==> !IdentPart(s[n])
  {
    if s != "" && IdentPart(s[0]) then 1 + WordEnd(s[1..]) else 0
  }

  datatype KeyLine = KeyLine(indent: string, key: string, rest: string)

  /** `KEY_LINE`: indent, an optional comment marker, the key, `=`, and the rest. */
  function MatchKeyLine(raw: string): Option<KeyLine> {
    var a := Spaces(raw);
    MatchBody(raw[..a], Unmark(raw[a..]))
  }

  function Unmark(r: string): string {
    if r != "" && Marks(r[0]) then r[1..][Spaces(r[1..])..] else r
  }

  function MatchBody(indent: string, body: string): Option<KeyLine> {
    if body == "" || !IdentStart(body[0]) then None else
    var k := WordEnd(body);
    MatchTail(indent, body[..k], body[k..])
  }

  function MatchTail(indent: string, key: string, tail: string): Option<KeyLine> {
    var t := tail[Spaces(tail)..];
    if t == "" || t[0] != '=' then None else Some(KeyLine(indent, key, t[1..][Spaces(t[1..])..]))
  }

  /** The line emitted for a key the user set: active, with the template's inline
      comment. */
  function Substituted(m: KeyLine, value: string): string {
    TrimmedWithin(m.rest);
    m.indent + m.key + " = " + value + m.rest[InlineAt(m.rest)..]
  }

  /** Line `raw` of the template carries a known key that `keys` wants. */
  predicate Wanted(raw: string, keys: set<string>) {
    var m := MatchKeyLine(raw);
    m.Some? && Lower(m.value.key) in KNOWN_KEYS && Lower(m.value.key) in keys
  }

  function KeyOf(raw: string): string
    requires MatchKeyLine(raw).Some?
  {
    Lower(MatchKeyLine(raw).value.key)
  }

  datatype Merged = Merged(lines: seq<string>, applied: seq<string>, left: map<string, string>)

  function MergeLines(template: seq<string>, user: map<string, string>): Merged {
    if template == [] then Merged([], [], user) else
    var raw := template[0];
    if Wanted(raw, user.Keys) then
      var k := KeyOf(raw);
      var m := MergeLines(template[1..], user - {k});
      Merged([Substituted(MatchKeyLine(raw).value, user[k])] + m.lines, [k] + m.applied, m.left)
    else
      var m := MergeLines(template[1..], user);
      m.(lines := [raw] + m.lines)
  }

  /** `merge`: walks the template, appending to the output and consuming `user`. */
  method Merge(template: seq<string>, user: map<string, string>) returns (out: seq<string>, applied: seq<string>, left: map<string, string>)
    ensures Merged(out, applied, left) == MergeLines(template, user)
  {
    out, applied, left := [], [], user;
    var i := 0;
    assert template[0..] == template;
    while i < |template|
      invariant 0 <= i <= |template|
      invariant var m := MergeLines(template[i..], left);
        MergeLines(template, user) == Merged(out + m.lines, applied + m.applied, m.left)
    {
      var raw := template[i];
      assert template[i..][1..] == template[i + 1..];
      ghost var m := MergeLines(template[i..], left);
      ghost var out', applied' := out, applied;
      i := i + 1;
      var found := MatchKeyLine(raw);
      if found.None? {
        out := out + [raw];
      } else if Lower(found.value.key) !in KNOWN_KEYS || Lower(found.value.key) !in left {
        out := out + [raw];
      } else {
        var key := Lower(found.value.key);
        out := out + [Substituted(found.value, left[key])];
        applied := applied + [key];
        left := left - {key};
      }
      Regroup(out', m.lines, out, MergeLines(template[i..], left).lines);
      Regroup(applied', m.applied, applied, MergeLines(template[i..], left).applied);
    }
  }

  lemma Regroup(a: seq<string>, b: seq<string>, a': seq<string>, b': seq<string>)
    requires a <= a' && b == a'[|a|..] + b'
    ensures a + b == a' + b'
  {}

  // --------------------------------------------------- well-formed user maps

  predicate GoodKey(k: string) {
    && Tight(k) && '=' !in k && OneLine(k) && Lower(k) == k
    && (k != "" ==> !Marks(k[0]) && k[0] != '[')
  }

  predicate GoodValue(v: string) { Tight(v) && CommentAt(v) == |v| && OneLine(v) }

  predicate GoodMap(m: map<string, string>) {
    forall k <- m :: GoodKey(k) && GoodValue(m[k])
  }

  lemma {:induction false} TrimRightTight(s: string)
    ensures TrimRight(s) == "" || !Space(TrimRight(s)[|TrimRight(s)| - 1])
    ensures s != "" && !Space(s[0]) ==> TrimRight(s) != ""
  {
    if s != "" && Space(s[|s| - 1]) {
      TrimRightTight(s[..|s| - 1]);
    }
  }

  lemma {:induction false} TrimLeftIs(s: string)
    ensures TrimLeft(s) == s[Spaces(s)..]
  {
    if s != "" && Space(s[0]) {
      TrimLeftIs(s[1..]);
    }
  }

  /** Trimming takes a middle piece with no blank at either end. */
  lemma TrimIs(s: string)
    ensures Tight(Trim(s))
    ensures var a := Spaces(s); a + |Trim(s)| <= |s| && Trim(s) == s[a..a + |Trim(s)|]
  {
    TrimLeftIs(s);
    TrimRightTight(TrimLeft(s));
    assert TrimRight(TrimLeft(s)) == TrimLeft(s)[..|TrimRight(TrimLeft(s))|];
  }

  lemma {:induction false} LowerIdem(s: string)
    ensures Lower(Lower(s)) == Lower(s)
  {
    if s != "" {
      LowerIdem(s[1..]);
      assert Lower(s)[1..] == Lower(s[1..]);
    }
  }

  /** A piece of a text without some characters is without them too. */
  lemma {:induction false} NoComment(s: string)
    requires forall c <- s :: !Marks(c)
    ensures CommentAt(s) == |s|
  {
    if s != "" {
      NoComment(s[1..]);
    }
  }

  lemma PieceOf(s: string, i: nat, j: nat)
    requires i <= j <= |s|
    ensures forall c <- s[i..j] :: c in s
  {}

  lemma ValueGood(t: string)
    requires OneLine(t)
    ensures GoodValue(Trim(Cut(t)))
  {
    var v := Trim(Cut(t));
    TrimIs(Cut(t));
    var a := Spaces(Cut(t));
    PieceOf(Cut(t), a, a + |v|);
    PieceOf(t, 0, CommentAt(t));
    assert forall c <- Cut(t) :: !Marks(c);
    hide Cut, Trim, Spaces;
    NoComment(v);
  }

  /** The part of a trimmed, unskipped line before its `=` makes a good key. */
  lemma KeyGood(part: string)
    requires '=' !in part && OneLine(part)
    requires part != "" ==> !Space(part[0]) && !Marks(part[0]) && part[0] != '['
    ensures GoodKey(Lower(Trim(part)))
  {
    var k := Trim(part);
    TrimIs(part);
    var a := Spaces(part);
    PieceOf(part, a, a + |k|);
    assert part != "" ==> a == 0;
    assert k != "" ==> k[0] == part[0];
    hide Trim, Spaces, Lower;
    GoodLower(k, part);
  }

  lemma GoodLower(k: string, from: string)
    requires Tight(k) && (forall c <- k :: c in from) && '=' !in from && OneLine(from)
    requires k != "" ==> !Marks(k[0]) && k[0] != '['
    ensures GoodKey(Lower(k))
  {
    LowerIdem(k);
    hide Lower;
    forall i | 0 <= i < |k|
      ensures Lower(k)[i] != '=' && Lower(k)[i] != '\n'
    {
      assert k[i] in from;
    }
  }

  /** A piece of one line is one. */
  lemma PieceOneLine(s: string, i: nat, j: nat)
    requires i <= j <= |s| && OneLine(s)
    ensures OneLine(s[i..j])
  {
    PieceOf(s, i, j);
  }

  lemma TrimOneLine(line: string)
    requires OneLine(line)
    ensures OneLine(Trim(line)) && (Trim(line) != "" ==> !Space(Trim(line)[0]))
  {
    TrimIs(line);
    PieceOneLine(line, Spaces(line), Spaces(line) + |Trim(line)|);
  }

  lemma SettingGood(line: string)
    requires OneLine(line)
    ensures IniLine(line).Some? ==> GoodKey(IniLine(line).value.key) && GoodValue(IniLine(line).value.value)
  {
    TrimOneLine(line);
    hide Trim, Cut, Lower, GoodKey, GoodValue, OneLine;
    var l := Trim(line);
    var i := IndexOf(l, '=');
    if !Skipped(l) && i < |l| {
      PieceOneLine(l, 0, i);
      PieceOneLine(l, i + 1, |l|);
      assert l[i + 1..] == l[i + 1..|l|];
      KeyGood(l[..i]);
      ValueGood(l[i + 1..]);
    }
  }

  lemma {:induction false} MeaningGood(lines: seq<string>)
    requires forall l <- lines :: OneLine(l)
    ensures GoodMap(Meaning(lines))
  {
    hide IniLine, GoodKey, GoodValue;
    if lines != [] {
      MeaningGood(lines[..|lines| - 1]);
      SettingGood(lines[|lines| - 1]);
    }
  }

  lemma {:induction false} SplitOneLine(s: string)
    requires '\r' !in s
    ensures forall l <- SplitLines(s) :: OneLine(l)
  {
    if s != "" {
      var i := IndexOf(s, '\n');
      if i == |s| {
        assert s[..i] == s;
      } else {
        SplitOneLine(s[i + 1..]);
      }
    }
  }

  // ----------------------------------------------- what emitted lines mean

  lemma {:induction false} TrimRightTail(s: string, t: string)
    requires s != "" && !Space(s[|s| - 1])
    ensures TrimRight(s + t) == s + TrimRight(t)
  {
    if t == "" {
      assert s + t == s;
    } else if Space(t[|t| - 1]) {
      assert (s + t)[..|s + t| - 1] == s + t[..|t| - 1];
      TrimRightTail(s, t[..|t| - 1]);
    }
  }

  lemma {:induction false} TrimLeftHead(pre: string, s: string)
    requires Blank(pre) && s != "" && !Space(s[0])
    ensures TrimLeft(pre + s) == s
  {
    if pre == "" {
      assert pre + s == s;
    } else {
      assert (pre + s)[1..] == pre[1..] + s;
      assert pre[0] in pre;
      TrimLeftHead(pre[1..], s);
    }
  }

  lemma {:induction false} FirstEquals(k: string, rest: string)
    requires '=' !in k
    ensures IndexOf(k + "=" + rest, '=') == |k|
  {
    if k != "" {
      assert (k + "=" + rest)[1..] == k[1..] + "=" + rest;
      FirstEquals(k[1..], rest);
    }
  }

  /** Trimming the right end before or after the cut makes no difference. */
  lemma {:induction false} CutTrim(s: string)
    ensures Trim(Cut(TrimRight(s))) == Trim(Cut(s))
  {
    if s != "" && Space(s[|s| - 1]) {
      var t := s[..|s| - 1];
      CutTrim(t);
      CutFront(s);
    }
  }

  lemma {:induction false} CutFront(s: string)
    requires s != "" && Space(s[|s| - 1])
    ensures Trim(Cut(s[..|s| - 1])) == Trim(Cut(s))
  {
    var t := s[..|s| - 1];
    CommentFront(s);
    if CommentAt(s) == |s| {
      assert Cut(s) == s && Cut(t) == t;
      TrimDropsLast(s);
    } else {
      assert Cut(s) == Cut(t);
    }
  }

  lemma {:induction false} CommentFront(s: string)
    requires s != "" && !Marks(s[|s| - 1])
    ensures CommentAt(s) == |s| ==> CommentAt(s[..|s| - 1]) == |s| - 1
    ensures CommentAt(s) < |s| ==> CommentAt(s[..|s| - 1]) == CommentAt(s)
  {
    if |s| > 1 && !Marks(s[0]) {
      assert s[..|s| - 1][1..] == s[1..][..|s| - 2];
      CommentFront(s[1..]);
    }
  }

  /** A line `pre key = post`, blanks apart, sets `key` to the cut and trimmed `post`. */
  lemma LineShape(pre: string, k: string, post: string)
    requires Blank(pre) && '=' !in k
    requires k != "" ==> !Space(k[0]) && !Marks(k[0]) && k[0] != '['
    ensures IniLine(pre + k + "=" + post) == Some(Setting(Lower(Trim(k)), Trim(Cut(post))))
  {
    var head := k + "=";
    assert pre + k + "=" + post == pre + (head + post);
    TrimLeftHead(pre, head + post);
    TrimRightTail(head, post);
    var l := head + TrimRight(post);
    assert Trim(pre + k + "=" + post) == l;
    FirstEquals(k, TrimRight(post));
    assert l[..|k|] == k && l[|k| + 1..] == TrimRight(post);
    CutTrim(post);
  }

  lemma TrimTight(s: string, post: string)
    requires Tight(s) && Blank(post)
    ensures Trim(" " + s + post) == s && Trim(s + post) == s
  {
    if s == "" {
      BlankTrims(" " + s + post);
      BlankTrims(s + post);
    } else {
      assert " " + s + post == " " + (s + post);
      TrimLeftHead(" ", s + post);
      TrimLeftHead("", s + post);
      assert "" + (s + post) == s + post;
      TrimRightTail(s, post);
      BlankTrims(post);
      assert s + "" == s;
    }
  }

  lemma {:induction false} BlankTrims(s: string)
    requires Blank(s)
    ensures TrimRight(s) == "" && Trim(s) == ""
  {
    if s != "" {
      assert s[|s| - 1] in s;
      BlankTrims(s[..|s| - 1]);
      TrimDropsLast(s);
    }
  }

  /** A passed-through setting means itself. */
  lemma EntryMeans(k: string, v: string)
    requires GoodKey(k) && GoodValue(v)
    ensures IniLine(k + " = " + v) == Some(Setting(k, v))
  {
    assert Cut(" " + v) == " " + v by { NoComment(" " + v); }
    TrimTight(v, "");
    assert " " + v + "" == " " + v;
    if k == "" {
      assert k + " = " + v == " " + "" + "=" + (" " + v);
      LineShape(" ", "", " " + v);
      BlankTrims("");
    } else {
      assert k + " = " + v == "" + (k + " ") + "=" + (" " + v);
      LineShape("", k + " ", " " + v);
      TrimTight(k, " ");
    }
  }

  /** Where the inline comment is cut off, only blanks come before the marker. */
  lemma InlineShape(s: string)
    ensures InlineAt(s) <= CommentAt(s)
    ensures CommentAt(s) < |s| ==> Blank(s[InlineAt(s)..CommentAt(s)])
    ensures CommentAt(s) == |s| ==> s[InlineAt(s)..] == ""
  {
    if CommentAt(s) < |s| {
      TrimRightBlank(Cut(s));
    }
  }

  lemma {:induction false} TrimRightBlank(s: string)
    ensures Blank(s[|TrimRight(s)|..])
  {
    if s != "" && Space(s[|s| - 1]) {
      var t := s[..|s| - 1];
      TrimRightBlank(t);
      assert s[|TrimRight(s)|..] == t[|TrimRight(t)|..] + [s[|s| - 1]];
    }
  }

  lemma {:induction false} CommentAfter(s: string, t: string)
    requires forall c <- s :: !Marks(c)
    ensures CommentAt(s + t) == |s| + CommentAt(t)
  {
    if s == "" {
      assert s + t == t;
    } else {
      assert (s + t)[1..] == s[1..] + t;
      CommentAfter(s[1..], t);
    }
  }

  /** A value, a gap of blanks and an inline comment cut back to the value. */
  lemma ValueThenComment(v: string, gap: string, comment: string)
    requires GoodValue(v) && Blank(gap) && (comment == "" || Marks(comment[0]))
    ensures Trim(Cut(" " + v + (gap + comment))) == v
  {
    var s := " " + v + gap;
    Reassoc(" " + v, gap, comment);
    assert forall c <- s :: !Marks(c) by {
      assert forall c <- v :: !Marks(c);
    }
    CommentAfter(s, comment);
    assert (s + comment)[..|s|] == s;
    TrimTight(v, gap);
  }

  lemma Reassoc(a: string, b: string, c: string)
    ensures a + b + c == a + (b + c)
  {}

  lemma ValueWithComment(v: string, rest: string)
    requires GoodValue(v)
    ensures InlineAt(rest) <= |rest|
    ensures Trim(Cut(" " + v + rest[InlineAt(rest)..])) == v
  {
    hide InlineAt, Trim, Cut, GoodValue, Blank;
    InlineShape(rest);
    var at, c := InlineAt(rest), CommentAt(rest);
    assert rest[at..] == rest[at..c] + rest[c..];
    ValueThenComment(v, rest[at..c], rest[c..]);
  }

  /** The shape of a matched line: its key is an identifier. */
  lemma MatchShape(raw: string)
    requires MatchKeyLine(raw).Some?
    ensures var m := MatchKeyLine(raw).value;
      && Blank(m.indent) && m.key != "" && IdentStart(m.key[0])
      && (forall c <- m.key :: IdentPart(c))
  {}

  lemma Respaced(indent: string, key: string, tail: string)
    ensures indent + key + " = " + tail == indent + (key + " ") + "=" + (" " + tail)
  {}

  lemma KeyLineMeans(indent: string, key: string, post: string)
    requires Blank(indent) && key != "" && IdentStart(key[0]) && forall c <- key :: IdentPart(c)
    ensures IniLine(indent + (key + " ") + "=" + post) == Some(Setting(Lower(key), Trim(Cut(post))))
  {
    assert forall c <- key + " " :: c != '=';
    assert key[|key| - 1] in key;
    TrimTight(key, " ");
    LineShape(indent, key + " ", post);
  }

  /** An emitted key line sets that key to the user's value. */
  lemma SubstitutedMeans(raw: string, v: string)
    requires MatchKeyLine(raw).Some? && GoodValue(v)
    ensures IniLine(Substituted(MatchKeyLine(raw).value, v)) == Some(Setting(KeyOf(raw), v))
  {
    var m := MatchKeyLine(raw).value;
    MatchShape(raw);
    hide MatchKeyLine, IniLine, Cut, Trim, InlineAt, GoodValue, Lower;
    ValueWithComment(v, m.rest);
    var inline := m.rest[InlineAt(m.rest)..];
    Respaced(m.indent, m.key, v + inline);
    Reassoc(m.indent + m.key + " = ", v, inline);
    Reassoc(" ", v, inline);
    KeyLineMeans(m.indent, m.key, " " + v + inline);
  }
}
