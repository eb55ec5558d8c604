/** The lines themselves, character by character: which lines `parse_ini` reads and as
    what, which the merge takes for key lines, and what the merge makes of each. */
module KeyLines {
  import opened Wire
  import opened Ini
  import opened Migrate
  import opened Migration

  // ----------------------------------------------------------- reading a line

  predicate NoMarks(s: string) { forall c <- s :: c != ';' && c != '#' }

  predicate Comment(s: string) { s == "" || s[0] == ';' || s[0] == '#' }

  /** Any key, value and inline comment with any blanks about them read as that setting, the
      key in lower case. */
  lemma SettingLine(pre: string, key: string, g1: string, g2: string, v: string, g3: string, comment: string)
    requires Blank(pre) && Blank(g1) && Blank(g2) && Blank(g3) && Comment(comment)
    requires Tight(key) && '=' !in key && (key == "" ==> g1 == "")
    requires key != "" ==> key[0] != ';' && key[0] != '#' && key[0] != '['
    requires Tight(v) && NoMarks(v)
    ensures IniLine(pre + (key + g1) + "=" + (g2 + (v + (g3 + comment)))) == Some(Setting(Lower(key), v))
  {
    var post := g2 + (v + (g3 + comment));
    assert '=' !in key + g1 by {
      assert '=' !in g1 by { assert forall c <- g1 :: Space(c); }
    }
    LineShape(pre, key + g1, post);
    hide IniLine, Lower, Trim, Cut;
    ValueCut(g2, v, g3, comment);
    TrimTight(key, g1);
  }

  lemma ValueCut(g2: string, v: string, g3: string, comment: string)
    requires Blank(g2) && Blank(g3) && Comment(comment) && Tight(v) && NoMarks(v)
    ensures Trim(Cut(g2 + (v + (g3 + comment)))) == v
  {
    var s := g2 + (v + g3);
    assert g2 + (v + (g3 + comment)) == s + comment;
    assert forall c <- s :: !Marks(c) by {
      assert forall c <- v :: !Marks(c);
    }
    CommentAfter(s, comment);
    assert (s + comment)[..|s|] == s;
    TrimBetween(g2, v, g3);
  }

  lemma TrimBetween(a: string, v: string, b: string)
    requires Blank(a) && Blank(b) && Tight(v)
    ensures Trim(a + (v + b)) == v
  {
    if v == "" {
      assert Blank(a + (v + b));
      BlankTrims(a + (v + b));
    } else {
      TrimLeftHead(a, v + b);
      TrimRightTail(v, b);
      BlankTrims(b);
      assert v + "" == v;
    }
  }

  /** Exactly the blank lines, comments, section headers and lines without an equals sign
      set nothing. */
  lemma IgnoredLine(pre: string, s: string)
    requires Blank(pre) && (s == "" || !Space(s[0]))
    ensures IniLine(pre + s) == None <==> s == "" || s[0] == ';' || s[0] == '#' || s[0] == '[' || '=' !in s
  {
    if s == "" {
      assert pre + s == pre;
      BlankTrims(pre);
    } else {
      TrimLeftHead(pre, s);
      var l := TrimRight(s);
      TrimRightTight(s);
      TrimRightBlank(s);
      assert s == l + s[|l|..];
      assert '=' in s <==> '=' in l by {
        assert '=' !in s[|l|..];
      }
      hide TrimRight, TrimLeft, Lower, Cut, Blank;
      assert l == l[..IndexOf(l, '=')] + l[IndexOf(l, '=')..];
    }
  }

  predicate Sets(line: string, k: string) { IniLine(line).Some? && IniLine(line).value.key == k }

  /** The last line that sets a key decides it. */
  lemma {:induction false} LastWins(lines: seq<string>, i: nat, k: string)
    requires i < |lines| && Sets(lines[i], k) && forall j :: i < j < |lines| ==> !Sets(lines[j], k)
    ensures k in Meaning(lines) && Meaning(lines)[k] == IniLine(lines[i]).value.value
  {
    hide IniLine;
    var n := |lines| - 1;
    if i < n {
      LastWins(lines[..n], i, k);
    }
  }

  /** A key no line sets has no value. */
  lemma {:induction false} NoneSets(lines: seq<string>, k: string)
    requires forall j :: 0 <= j < |lines| ==> !Sets(lines[j], k)
    ensures k !in Meaning(lines)
  {
    hide IniLine;
    if lines != [] {
      NoneSets(lines[..|lines| - 1], k);
    }
  }

  predicate SameLetter(x: char, y: char) {
    x == y || ('A' <= x <= 'Z' && y as int == x as int + 32) || ('A' <= y <= 'Z' && x as int == y as int + 32)
  }

  /** Keys that differ only in case are the same key, which has no capitals. */
  lemma CaseFolds(a: string, b: string)
    requires |a| == |b| && forall i :: 0 <= i < |a| ==> SameLetter(a[i], b[i])
    ensures Lower(a) == Lower(b) && forall c <- Lower(a) :: !('A' <= c <= 'Z')
  {
    hide Lower;
  }

  // ---------------------------------------------------------------- key lines

  /** A key line taken apart: indent, comment marker if any and the blanks after it, key,
      blanks, equals sign, and the rest. */
  datatype Parts = Parts(indent: string, marker: string, gap: string, key: string, before: string, rest: string)

  function Assembled(p: Parts): string {
    p.indent + (p.marker + (p.gap + (p.key + (p.before + ("=" + p.rest)))))
  }

  /** A letter or an underscore, then letters, digits and underscores. */
  predicate Identifier(k: string) {
    && k != "" && !('0' <= k[0] <= '9')
    && forall i :: 0 <= i < |k| ==> 'a' <= k[i] <= 'z' || 'A' <= k[i] <= 'Z' || '0' <= k[i] <= '9' || k[i] == '_'
  }

  predicate Proper(p: Parts) {
    && Blank(p.indent) && Blank(p.gap) && Blank(p.before) && Identifier(p.key)
    && (p.marker == ";" || p.marker == "#" || (p.marker == "" && p.gap == ""))
  }

  lemma TailIs(indent: string, key: string, before: string, rest: string)
    requires Blank(before)
    ensures MatchTail(indent, key, before + ("=" + rest)) == Some(KeyLine(indent, key, rest[Spaces(rest)..]))
  {
    var r := "=" + rest;
    SpacesIs(before, r);
    assert (before + r)[|before|..] == r && r[1..] == rest;
  }

  lemma Unmarks(marker: string, gap: string, body: string)
    requires Blank(gap) && body != "" && !Space(body[0]) && !Marks(body[0])
    requires marker == ";" || marker == "#" || (marker == "" && gap == "")
    ensures Unmark(marker + (gap + body)) == body
  {
    var r := marker + (gap + body);
    if marker == "" {
      assert r == body;
    } else {
      assert r[1..] == gap + body;
      SpacesIs(gap, body);
      assert (gap + body)[|gap|..] == body;
    }
  }

  /** Every line of that form is a key line, commented out or not, for its key. */
  lemma BuiltMatches(p: Parts)
    requires Proper(p)
    ensures MatchKeyLine(Assembled(p)) == Some(KeyLine(p.indent, p.key, p.rest[Spaces(p.rest)..]))
  {
    hide Spaces, Unmark, MatchBody, MatchTail, WordEnd, Blank;
    var tail := p.before + ("=" + p.rest);
    var body := p.key + tail;
    TailStarts(p.before, p.rest);
    assert body[0] == p.key[0];
    Unmarks(p.marker, p.gap, body);
    var r := p.marker + (p.gap + body);
    StartsUnblank(p.marker, p.gap, body);
    SpacesIs(p.indent, r);
    assert (p.indent + r)[..|p.indent|] == p.indent && (p.indent + r)[|p.indent|..] == r;
    BodyBuilt(p.indent, p.key, tail);
    TailIs(p.indent, p.key, p.before, p.rest);
  }

  lemma StartsUnblank(marker: string, gap: string, body: string)
    requires body != "" && !Space(body[0])
    requires marker == ";" || marker == "#" || (marker == "" && gap == "")
    ensures marker + (gap + body) != "" && !Space((marker + (gap + body))[0])
  {
    if marker == "" {
      assert marker + (gap + body) == body;
    }
  }

  /** And every key line is of that form. */
  lemma MatchTakesApart(raw: string) returns (p: Parts)
    requires MatchKeyLine(raw).Some?
    ensures Proper(p) && raw == Assembled(p)
    ensures MatchKeyLine(raw).value == KeyLine(p.indent, p.key, p.rest[Spaces(p.rest)..])
  {
    MatchShape(raw);
    MatchIsBody(raw);
    hide MatchBody, MatchTail, WordEnd, MatchKeyLine, Unmark, Spaces, Blank, IdentStart, IdentPart, Identifier;
    var a := Spaces(raw);
    assert raw == raw[..a] + raw[a..] && Blank(raw[..a]);
    var marker, gap, body := UnmarkParts(raw[a..]);
    var before, post := BodyParts(raw[..a], body);
    p := Parts(raw[..a], marker, gap, MatchKeyLine(raw).value.key, before, post);
    IdentifierOf(p.key);
  }

  lemma IdentifierOf(k: string)
    requires k != "" && IdentStart(k[0]) && forall c <- k :: IdentPart(c)
    ensures Identifier(k)
  {
    forall i | 0 <= i < |k|
      ensures IdentPart(k[i])
    {
      assert k[i] in k;
    }
  }

  lemma MatchIsBody(raw: string)
    ensures MatchKeyLine(raw) == MatchBody(raw[..Spaces(raw)], Unmark(raw[Spaces(raw)..]))
  {}

  lemma UnmarkParts(r: string) returns (marker: string, gap: string, body: string)
    ensures r == marker + (gap + body) && body == Unmark(r) && Blank(gap)
    ensures marker == ";" || marker == "#" || (marker == "" && gap == "")
  {
    if r != "" && Marks(r[0]) {
      var n := Spaces(r[1..]);
      marker, gap, body := r[..1], r[1..][..n], r[1..][n..];
      assert r == r[..1] + r[1..] && r[1..] == gap + body;
      assert marker == [r[0]];
    } else {
      marker, gap, body := "", "", r;
    }
  }

  // ---------------------------------------------------------- the merged lines

  /** Line `i` is the first key line of a known key that the user set. */
  predicate Applies(template: seq<string>, user: map<string, string>, i: nat)
    requires i < |template|
  {
    && MatchKeyLine(template[i]).Some? && KeyOf(template[i]) in KNOWN_KEYS && KeyOf(template[i]) in user
    && forall j :: 0 <= j < i ==> !Matches(template[j], KeyOf(template[i]))
  }

  /** The merge line by line: the first key line of each known key the user set is
      replaced, and every other line is kept as it is. */
  lemma {:induction false} MergedLine(template: seq<string>, user: map<string, string>, i: nat)
    requires i < |template|
    ensures |MergeLines(template, user).lines| == |template|
    ensures MergeLines(template, user).lines[i] ==
      if Applies(template, user, i) then Substituted(MatchKeyLine(template[i]).value, user[KeyOf(template[i])])
      else template[i]
  {
    hide MatchKeyLine, Substituted;
    SameBlanks(template, user);
    var raw, rest := template[0], template[1..];
    if i > 0 {
      if Wanted(raw, user.Keys) {
        MergedLine(rest, user - {KeyOf(raw)}, i - 1);
        AppliesLater(template, user, user - {KeyOf(raw)}, i);
      } else {
        MergedLine(rest, user, i - 1);
        AppliesLater(template, user, user, i);
      }
    }
  }

  lemma AppliesLater(template: seq<string>, user: map<string, string>, left: map<string, string>, i: nat)
    requires 0 < i < |template|
    requires left == if Wanted(template[0], user.Keys) then user - {KeyOf(template[0])} else user
    ensures Applies(template, user, i) <==> Applies(template[1..], left, i - 1)
    ensures Applies(template, user, i) ==> left[KeyOf(template[i])] == user[KeyOf(template[i])]
  {
    hide MatchKeyLine;
    var rest := template[1..];
    assert rest[i - 1] == template[i];
    if MatchKeyLine(template[i]).Some? {
      var k := KeyOf(template[i]);
      assert (forall j :: 0 <= j < i ==> !Matches(template[j], k)) <==>
             !Matches(template[0], k) && forall j :: 0 <= j < i - 1 ==> !Matches(rest[j], k) by {
        assert forall j :: 0 <= j < i - 1 ==> rest[j] == template[j + 1];
        assert forall j :: 0 < j < i ==> template[j] == rest[j - 1];
      }
    }
  }

  /** The rest of a key line: blanks, the old value, and an inline comment if any. */
  predicate RestIs(rest: string, lead: string, prev: string, gap: string, comment: string) {
    && rest == lead + (prev + (gap + comment)) && Blank(lead) && Blank(gap) && Comment(comment)
    && Tight(prev) && NoMarks(prev) && (prev == "" ==> gap == "")
  }

  /** The inline comment starts with the blanks before its marker. */
  lemma InlineIs(rest: string, lead: string, prev: string, gap: string, comment: string)
    requires RestIs(rest, lead, prev, gap, comment)
    ensures var r := rest[Spaces(rest)..];
      InlineAt(r) <= |r| && r[InlineAt(r)..] == if comment == "" then "" else gap + comment
  {
    LeadDropped(lead, prev, gap, comment);
    var r := rest[Spaces(rest)..];
    if comment != "" {
      var s := prev + gap;
      assert r == s + comment;
      assert forall c <- s :: !Marks(c);
      CommentAfter(s, comment);
      assert Cut(r) == s;
      if prev != "" {
        TrimRightTail(prev, gap);
      }
      BlankTrims(gap);
      assert prev + "" == prev;
      assert r[|prev|..] == gap + comment;
    } else {
      assert gap + comment == gap;
      assert forall c <- r :: !Marks(c);
      NoComment(r);
    }
  }

  lemma LeadDropped(lead: string, prev: string, gap: string, comment: string)
    requires Blank(lead) && Blank(gap) && Comment(comment) && Tight(prev) && (prev == "" ==> gap == "")
    ensures var rest := lead + (prev + (gap + comment)); rest[Spaces(rest)..] == prev + (gap + comment)
  {
    var tail := prev + (gap + comment);
    if tail == "" {
      assert lead + tail == lead;
      AllSpaces(lead);
    } else {
      assert !Space(tail[0]);
      SpacesIs(lead, tail);
      assert (lead + tail)[|lead|..] == tail;
    }
  }

  lemma {:induction false} AllSpaces(s: string)
    requires Blank(s)
    ensures Spaces(s) == |s|
  {
    if s != "" {
      assert s[0] in s;
      AllSpaces(s[1..]);
    }
  }

  /** What the merge writes for a key line, commented out or not, that it applies: the
      indent, the key as the template spells it, the user's value, and the template's
      inline comment with the blanks before it. */
  lemma UncommentsInPlace(template: seq<string>, user: map<string, string>, i: nat, p: Parts,
                          lead: string, prev: string, gap: string, comment: string)
    requires i < |template| && template[i] == Assembled(p) && Proper(p) && RestIs(p.rest, lead, prev, gap, comment)
    requires Lower(p.key) in KNOWN_KEYS && Lower(p.key) in user
    requires forall j :: 0 <= j < i ==> !Matches(template[j], Lower(p.key))
    ensures |MergeLines(template, user).lines| == |template|
    ensures MergeLines(template, user).lines[i] ==
      p.indent + p.key + " = " + user[Lower(p.key)] + if comment == "" then "" else gap + comment
  {
    hide MatchKeyLine, MergeLines, Lower, InlineAt, RestIs, Spaces;
    BuiltMatches(p);
    MergedLine(template, user, i);
    InlineIs(p.rest, lead, prev, gap, comment);
  }

  /** A line that is no key line, or one for a key the merge does not apply there, is kept
      character for character. */
  lemma OthersKept(template: seq<string>, user: map<string, string>, i: nat)
    requires i < |template|
    requires forall p :: Proper(p) && Assembled(p) == template[i] && Lower(p.key) in KNOWN_KEYS && Lower(p.key) in user
               ==> exists j :: 0 <= j < i && Matches(template[j], Lower(p.key))
    ensures |MergeLines(template, user).lines| == |template| && MergeLines(template, user).lines[i] == template[i]
  {
    hide MatchKeyLine, MergeLines, Lower;
    MergedLine(template, user, i);
    if MatchKeyLine(template[i]).Some? {
      var p := MatchTakesApart(template[i]);
      assert Proper(p) && Assembled(p) == template[i];
    }
  }

  /** What being a key line for `k` means, without the matcher. */
  lemma MatchesExactly(raw: string, k: string)
    ensures Matches(raw, k) <==> exists p :: Proper(p) && Assembled(p) == raw && Lower(p.key) == k
  {
    hide MatchKeyLine, Lower;
    if Matches(raw, k) {
      var p := MatchTakesApart(raw);
      assert Proper(p) && Assembled(p) == raw;
    }
    if p :| Proper(p) && Assembled(p) == raw && Lower(p.key) == k {
      BuiltMatches(p);
    }
  }

  // ---------------------------------------------------------- what is passed on

  /** The keys `Config` reads from a parsed file (src/config.rs), in its order. */
  const READ_KEYS: seq<string> := [
    "host", "port", "localport", "proto", "tcprole", "log", "channels", "connecttimeout",
    "accepttimeout", "udpportfallback", "peercheck", "allow"]

  /** The merge knows exactly the keys that the program reads. */
  lemma KnownIsRead(k: string)
    ensures k in KNOWN_KEYS <==> k in READ_KEYS
  {}

  /** Every key left over has its line in the appended section, under the heading; a key
      that the program does not read has a comment right before it that says so. */
  lemma {:induction false} PassedOn(order: seq<string>, left: map<string, string>, k: string) returns (i: nat)
    requires (forall j <- order :: j in left) && k in order
    ensures var lines := Section(order, left);
      && 2 <= i < |lines| && lines[0] == "" && lines[1] == Heading()
      && lines[i] == k + " = " + left[k]
      && (k !in KNOWN_KEYS ==> i > 2 && lines[i - 1] == "; (not a recognised" + " kvasilloni key)")
  {
    hide Heading;
    var front, last := order[..|order| - 1], order[|order| - 1];
    var lines := Section(order, left);
    assert lines == Section(front, left) + Entry(last, left[last]);
    if k == last {
      i := |lines| - 1;
      NotKnownText();
      hide NotKnown;
      assert lines[i] == Entry(last, left[last])[|Entry(last, left[last])| - 1];
    } else {
      i := PassedOn(front, left, k);
      hide NotKnown;
    }
  }

  lemma NotKnownText()
    ensures NotKnown() == "; (not a recognised" + " kvasilloni key)"
  {}
}
