/** What the migrated INI text means, against the template and the user's settings. */
module Migration {
  import opened Wire
  import opened Ini
  import opened Migrate

  /** Template line `raw` is a key line for `k`, commented out or not. */
  predicate Matches(raw: string, k: string) { MatchKeyLine(raw).Some? && KeyOf(raw) == k }

  // ------------------------------------------- key lines and active settings

  lemma KnownLetters(k: string)
    requires k in KNOWN_KEYS
    ensures k != "" && forall c <- k :: 'a' <= c <= 'z'
  {}

  /** An unmarked key line, taken apart. */
  lemma KeyLineParts(raw: string) returns (gap: string, post: string)
    requires MatchKeyLine(raw).Some? && Unmark(raw[Spaces(raw)..]) == raw[Spaces(raw)..]
    ensures var m := MatchKeyLine(raw).value;
      raw == m.indent + (m.key + gap) + "=" + post && Blank(gap)
  {
    hide Spaces, Unmark, MatchBody, Blank;
    var a := Spaces(raw);
    gap, post := BodyParts(raw[..a], raw[a..]);
    var key := MatchBody(raw[..a], raw[a..]).value.key;
    Regrouped(raw[..a], key, gap, post);
    assert raw == raw[..a] + raw[a..];
  }

  lemma BodyParts(indent: string, body: string) returns (gap: string, post: string)
    requires MatchBody(indent, body).Some?
    ensures var m := MatchBody(indent, body).value;
      m.indent == indent && body == m.key + (gap + ("=" + post)) && Blank(gap) && m.rest == post[Spaces(post)..]
  {
    hide WordEnd, MatchTail, Blank;
    var k := WordEnd(body);
    gap, post := TailParts(indent, body[..k], body[k..]);
    assert body == body[..k] + body[k..];
  }

  lemma TailParts(indent: string, key: string, tail: string) returns (gap: string, post: string)
    requires MatchTail(indent, key, tail).Some?
    ensures tail == gap + ("=" + post) && Blank(gap)
    ensures MatchTail(indent, key, tail).value == KeyLine(indent, key, post[Spaces(post)..])
  {
    hide Spaces;
    var n := Spaces(tail);
    gap, post := tail[..n], tail[n + 1..];
    assert tail[n..][0] == '=';
  }

  lemma Regrouped(indent: string, key: string, gap: string, post: string)
    ensures indent + (key + (gap + ("=" + post))) == indent + (key + gap) + "=" + post
  {}

  lemma MarkedIsSkipped(raw: string)
    requires Spaces(raw) < |raw| && Marks(raw[Spaces(raw)])
    ensures IniLine(raw) == None
  {
    TrimIs(raw);
    TrimLeftIs(raw);
    TrimRightTight(raw[Spaces(raw)..]);
  }

  /** A key line that `parse_ini` reads at all, it reads as a setting of that key. */
  lemma ActiveKey(raw: string)
    requires MatchKeyLine(raw).Some? && IniLine(raw).Some?
    ensures IniLine(raw).value.key == KeyOf(raw)
  {
    var a := Spaces(raw);
    if a < |raw| && Marks(raw[a]) {
      MarkedIsSkipped(raw);
    } else {
      MatchShape(raw);
      var gap, post := KeyLineParts(raw);
      var m := MatchKeyLine(raw).value;
      hide MatchKeyLine, IniLine, Trim, Lower;
      WordHasNoEquals(m.key, gap);
      LineShape(m.indent, m.key + gap, post);
      TrimTight(m.key, gap);
    }
  }

  lemma WordHasNoEquals(w: string, gap: string)
    requires Blank(gap) && w != "" && IdentStart(w[0]) && forall c <- w :: IdentPart(c)
    ensures '=' !in w + gap && Tight(w)
    ensures w + gap != "" && !Space((w + gap)[0]) && !Marks((w + gap)[0]) && (w + gap)[0] != '['
  {
    assert w[0] in w && w[|w| - 1] in w;
  }

  lemma {:induction false} WordEndIs(w: string, rest: string)
    requires (forall i :: 0 <= i < |w| ==> IdentPart(w[i])) && rest != "" && !IdentPart(rest[0])
    ensures WordEnd(w + rest) == |w|
  {
    if w == "" {
      assert w + rest == rest;
    } else {
      assert (w + rest)[1..] == w[1..] + rest;
      WordEndIs(w[1..], rest);
    }
  }

  lemma {:induction false} SpacesIs(gap: string, rest: string)
    requires Blank(gap) && rest != "" && !Space(rest[0])
    ensures Spaces(gap + rest) == |gap|
  {
    if gap == "" {
      assert gap + rest == rest;
    } else {
      assert gap[0] in gap;
      assert (gap + rest)[1..] == gap[1..] + rest;
      SpacesIs(gap[1..], rest);
    }
  }

  lemma TailBuilt(indent: string, key: string, gap: string, post: string)
    requires Blank(gap)
    ensures MatchTail(indent, key, gap + ("=" + post)).Some?
    ensures MatchTail(indent, key, gap + ("=" + post)).value.key == key
  {
    var rest := "=" + post;
    SpacesIs(gap, rest);
    assert (gap + rest)[|gap|..] == rest;
  }

  lemma BodyBuilt(indent: string, key: string, tail: string)
    requires key != "" && IdentStart(key[0]) && forall i :: 0 <= i < |key| ==> IdentPart(key[i])
    requires tail != "" && !IdentPart(tail[0])
    ensures MatchBody(indent, key + tail) == MatchTail(indent, key, tail)
  {
    WordEndIs(key, tail);
    assert (key + tail)[..|key|] == key && (key + tail)[|key|..] == tail;
  }

  lemma LineBuilt(indent: string, body: string)
    requires Blank(indent) && body != "" && !Space(body[0]) && !Marks(body[0])
    ensures MatchKeyLine(indent + body) == MatchBody(indent, body)
  {
    SpacesIs(indent, body);
    hide Spaces, MatchBody;
    assert (indent + body)[..|indent|] == indent && (indent + body)[|indent|..] == body;
  }

  lemma TailStarts(gap: string, post: string)
    requires Blank(gap)
    ensures gap + ("=" + post) != "" && !IdentPart((gap + ("=" + post))[0])
  {
    assert gap != "" ==> gap[0] in gap;
  }

  /** A line built as a key line is matched as one. */
  lemma MatchesBuilt(indent: string, key: string, gap: string, post: string)
    requires Blank(indent) && Blank(gap) && key != "" && IdentStart(key[0])
    requires forall i :: 0 <= i < |key| ==> IdentPart(key[i])
    ensures Matches(indent + (key + (gap + ("=" + post))), Lower(key))
  {
    hide MatchBody, MatchTail, Lower, MatchKeyLine, Blank;
    var tail := gap + ("=" + post);
    TailStarts(gap, post);
    assert (key + tail)[0] == key[0];
    LineBuilt(indent, key + tail);
    BodyBuilt(indent, key, tail);
    TailBuilt(indent, key, gap, post);
  }

  /** A trimmed line put back between its blanks. */
  lemma Untrim(raw: string) returns (after: string)
    ensures raw == raw[..Spaces(raw)] + (Trim(raw) + after)
  {
    TrimIs(raw);
    var a := Spaces(raw);
    after := raw[a + |Trim(raw)|..];
    assert raw == raw[..a] + raw[a..];
  }

  /** The blanks after a key that starts its part. */
  lemma KeyGap(part: string) returns (gap: string)
    requires part != "" && !Space(part[0])
    ensures part == Trim(part) + gap && Blank(gap)
  {
    TrimLeftIs(part);
    assert part[0..] == part;
    TrimRightBlank(part);
    gap := part[|TrimRight(part)|..];
  }

  /** The key part of a line that is read. */
  lemma IniParts(raw: string) returns (part: string, rest: string)
    requires IniLine(raw).Some?
    ensures Trim(raw) == part + ("=" + rest) && IniLine(raw).value.key == Lower(Trim(part))
    ensures part != "" ==> !Space(part[0])
  {
    TrimIs(raw);
    hide Trim, Lower, Cut;
    var l := Trim(raw);
    var i := IndexOf(l, '=');
    part, rest := l[..i], l[i + 1..];
  }

  /** A line that `parse_ini` reads as a setting of a known key is a key line for it. */
  lemma ActiveMatches(raw: string)
    requires IniLine(raw).Some? && IniLine(raw).value.key in KNOWN_KEYS
    ensures Matches(raw, IniLine(raw).value.key)
  {
    BlankTrims("");
    hide Trim, Lower, Matches, IniLine, Cut;
    var part, rest := IniParts(raw);
    var key := Trim(part);
    KnownLetters(Lower(key));
    LettersAreWords(key);
    var after := Untrim(raw);
    var gap := KeyGap(part);
    Layers(raw[..Spaces(raw)], key, gap, rest, after);
    MatchesBuilt(raw[..Spaces(raw)], key, gap, rest + after);
  }

  lemma Layers(indent: string, key: string, gap: string, value: string, after: string)
    ensures indent + (((key + gap) + ("=" + value)) + after) == indent + (key + (gap + ("=" + (value + after))))
  {}

  lemma LettersAreWords(key: string)
    requires Lower(key) != "" && forall c <- Lower(key) :: 'a' <= c <= 'z'
    ensures key != "" && IdentStart(key[0]) && forall i :: 0 <= i < |key| ==> IdentPart(key[i])
  {
    forall i | 0 <= i < |key|
      ensures IdentStart(key[i])
    {
      assert Lower(key)[i] in Lower(key);
    }
  }

  // ------------------------------------------------- the merge, line by line

  function Get(m: map<string, string>, k: string): Option<string> { if k in m then Some(m[k]) else None }

  /** After the first key line for `k`, the template sets `k` again, to something other
      than `v`. */
  predicate Overridden(template: seq<string>, k: string, v: string) {
    template != [] &&
    if Matches(template[0], k) then
      var later := Meaning(template[1..]);
      k in later && later[k] != v
    else Overridden(template[1..], k, v)
  }

  predicate HasKeyLine(template: seq<string>, k: string) {
    exists i :: 0 <= i < |template| && Matches(template[i], k)
  }

  /** What the merged lines say of an applied key: what the template still says after
      the replaced line, or else the user's value. */
  function Final(template: seq<string>, k: string, v: string): Option<string> {
    if template == [] then None
    else if Matches(template[0], k) then
      var later := Meaning(template[1..]);
      if k in later then Some(later[k]) else Some(v)
    else Final(template[1..], k, v)
  }

  lemma {:induction false} FinalIs(template: seq<string>, k: string, v: string)
    ensures Final(template, k, v).Some? <==> HasKeyLine(template, k)
    ensures Final(template, k, v).Some? ==> (Final(template, k, v) == Some(v) <==> !Overridden(template, k, v))
    ensures Final(template, k, v).None? ==> !Overridden(template, k, v)
  {
    hide MatchKeyLine, Meaning;
    if template != [] {
      FinalIs(template[1..], k, v);
      if !Matches(template[0], k) {
        if HasKeyLine(template[1..], k) {
          var i :| 0 <= i < |template[1..]| && Matches(template[1..][i], k);
          assert Matches(template[i + 1], k);
        }
        if HasKeyLine(template, k) {
          var i :| 0 <= i < |template| && Matches(template[i], k);
          assert Matches(template[1..][i - 1], k);
        }
      }
    }
  }

  /** What one line says of `k`. */
  function Says(line: string, k: string): Option<string> {
    if IniLine(line).Some? && IniLine(line).value.key == k then Some(IniLine(line).value.value) else None
  }

  lemma MeaningCons(line: string, rest: seq<string>, k: string)
    ensures Get(Meaning([line] + rest), k) ==
      if Get(Meaning(rest), k).Some? then Get(Meaning(rest), k) else Says(line, k)
  {
    hide IniLine;
    MeaningAppend([line], rest);
    MeaningOne(line);
  }

  /** What the merge `m` of some lines does about key `k`: it applies it if the user set
      it, it is known and a key line carries it, and then gives it its final value; a key
      not applied keeps what the lines say and stays with the user's leftovers. */
  ghost predicate KeyMerged(template: seq<string>, user: map<string, string>, k: string, m: Merged) {
    && (k in m.applied <==> k in user && k in KNOWN_KEYS && HasKeyLine(template, k))
    && Get(m.left, k) == (if k in m.applied then None else Get(user, k))
    && Get(Meaning(m.lines), k) == if k in m.applied then Final(template, k, user[k]) else Get(Meaning(template), k)
  }

  /** The key whose line is replaced. */
  lemma ReplacedKey(template: seq<string>, user: map<string, string>, line: string, sub: Merged)
    requires template != [] && Wanted(template[0], user.Keys)
    requires IniLine(line) == Some(Setting(KeyOf(template[0]), user[KeyOf(template[0])]))
    requires KeyMerged(template[1..], user - {KeyOf(template[0])}, KeyOf(template[0]), sub)
    ensures var k := KeyOf(template[0]);
      KeyMerged(template, user, k, Merged([line] + sub.lines, [k] + sub.applied, sub.left))
  {
    var k := KeyOf(template[0]);
    WantedMatches(template[0], user.Keys);
    SettingSays(line, k, user[k]);
    hide MatchKeyLine, KeyOf, Matches, Wanted, IniLine, Meaning, HasKeyLine, Says;
    KeyLineSplit(template, k);
    MeaningCons(line, sub.lines, k);
    assert k !in user - {k};
  }

  lemma WantedMatches(raw: string, keys: set<string>)
    requires Wanted(raw, keys)
    ensures Matches(raw, KeyOf(raw)) && KeyOf(raw) in KNOWN_KEYS && KeyOf(raw) in keys
  {}

  lemma SettingSays(line: string, k: string, v: string)
    requires IniLine(line) == Some(Setting(k, v))
    ensures Says(line, k) == Some(v)
  {}

  /** Any other key: the replaced line says nothing of it, before or after. */
  lemma OtherKey(template: seq<string>, user: map<string, string>, k: string, k0: string, line: string, sub: Merged)
    requires template != [] && k != k0 && !Matches(template[0], k)
    requires Says(template[0], k) == Says(line, k) == None
    requires KeyMerged(template[1..], user - {k0}, k, sub)
    ensures KeyMerged(template, user, k, Merged([line] + sub.lines, [k0] + sub.applied, sub.left))
  {
    hide Matches, Says, Meaning, HasKeyLine, Overridden, Final, Get;
    assert template == [template[0]] + template[1..];
    SilentLine(template[0], template[1..], k);
    SilentLine(line, sub.lines, k);
    KeyLineSplit(template, k);
    FinalSkips(template, k, if k in user then user[k] else "");
    InFront(k0, sub.applied, k);
    Without(user, k0, k);
    assert k in user - {k0} ==> (user - {k0})[k] == user[k];
  }

  lemma SilentLine(line: string, rest: seq<string>, k: string)
    requires Says(line, k) == None
    ensures Get(Meaning([line] + rest), k) == Get(Meaning(rest), k)
  {
    MeaningCons(line, rest, k);
    hide Meaning, Says;
  }

  lemma FinalSkips(template: seq<string>, k: string, v: string)
    requires template != [] && !Matches(template[0], k)
    ensures Final(template, k, v) == Final(template[1..], k, v)
  {
    hide Matches, Meaning;
  }

  lemma InFront(x: string, s: seq<string>, k: string)
    requires k != x
    ensures k in [x] + s <==> k in s
  {}

  lemma Without(m: map<string, string>, x: string, k: string)
    requires k != x
    ensures Get(m - {x}, k) == Get(m, k)
    ensures k in m - {x} <==> k in m
  {}

  lemma WantedStep(template: seq<string>, user: map<string, string>, k: string, sub: Merged)
    requires GoodMap(user) && template != [] && Wanted(template[0], user.Keys)
    requires KeyMerged(template[1..], user - {KeyOf(template[0])}, k, sub)
    ensures var k0 := KeyOf(template[0]);
      KeyMerged(template, user, k,
        Merged([Substituted(MatchKeyLine(template[0]).value, user[k0])] + sub.lines, [k0] + sub.applied, sub.left))
  {
    var raw, k0 := template[0], KeyOf(template[0]);
    hide MatchKeyLine, Substituted, Lower, GoodValue, GoodKey, IniLine, KeyMerged;
    var line := Substituted(MatchKeyLine(raw).value, user[k0]);
    SubstitutedMeans(raw, user[k0]);
    if k == k0 {
      ReplacedKey(template, user, line, sub);
    } else {
      if IniLine(raw).Some? {
        ActiveKey(raw);
      }
      OtherKey(template, user, k, k0, line, sub);
    }
  }

  lemma UnwantedStep(template: seq<string>, user: map<string, string>, k: string, sub: Merged)
    requires template != [] && !Wanted(template[0], user.Keys)
    requires KeyMerged(template[1..], user, k, sub)
    ensures KeyMerged(template, user, k, sub.(lines := [template[0]] + sub.lines))
  {
    var raw, rest := template[0], template[1..];
    KeyLineSplit(template, k);
    MeaningCons(raw, rest, k);
    assert template == [raw] + rest;
    MeaningCons(raw, sub.lines, k);
    FinalIs(rest, k, if k in user then user[k] else "");
    assert Matches(raw, k) ==> k !in KNOWN_KEYS || k !in user;
    hide Matches, Wanted, IniLine, Meaning, HasKeyLine;
  }

  /** The merge, key by key: every wanted key is applied once and gets its final value;
      every other key keeps what the template says. */
  lemma {:induction false} MergeKey(template: seq<string>, user: map<string, string>, k: string)
    requires GoodMap(user)
    ensures KeyMerged(template, user, k, MergeLines(template, user))
  {
    hide KeyMerged, Substituted, Lower, HasKeyLine, Final, Meaning, MatchKeyLine, GoodKey, GoodValue;
    if template == [] {
      MergeNothing(user, k);
    } else if Wanted(template[0], user.Keys) {
      var k0 := KeyOf(template[0]);
      MergeKey(template[1..], user - {k0}, k);
      WantedStep(template, user, k, MergeLines(template[1..], user - {k0}));
    } else {
      MergeKey(template[1..], user, k);
      UnwantedStep(template, user, k, MergeLines(template[1..], user));
    }
  }

  lemma MergeNothing(user: map<string, string>, k: string)
    ensures KeyMerged([], user, k, Merged([], [], user))
  {}

  lemma KeyLineSplit(template: seq<string>, k: string)
    requires template != []
    ensures HasKeyLine(template, k) <==> Matches(template[0], k) || HasKeyLine(template[1..], k)
  {
    hide MatchKeyLine;
    if HasKeyLine(template[1..], k) {
      var i :| 0 <= i < |template[1..]| && Matches(template[1..][i], k);
      assert Matches(template[i + 1], k);
    }
    if HasKeyLine(template, k) {
      var i :| 0 <= i < |template| && Matches(template[i], k);
      assert i > 0 ==> Matches(template[1..][i - 1], k);
    }
  }

  /** Nothing is lost or counted twice: applied plus passed through is the user's key
      count, and the template's line count is kept. */
  lemma {:induction false} MergeCounts(template: seq<string>, user: map<string, string>)
    ensures var m := MergeLines(template, user);
      |m.lines| == |template| && |m.applied| + |m.left| == |user| && m.left.Keys <= user.Keys
  {
    if template != [] {
      if Wanted(template[0], user.Keys) {
        var k := KeyOf(template[0]);
        MergeCounts(template[1..], user - {k});
        assert (user - {k}).Keys == user.Keys - {k};
        assert |user.Keys| == |user| && |(user - {k}).Keys| == |user - {k}|;
      } else {
        MergeCounts(template[1..], user);
      }
    }
  }

  // ------------------------------------------------------------ the whole text

  /** One way through the keys of a map; the sorted one is what `main` uses. */
  ghost predicate Enumerates(order: seq<string>, m: map<string, string>) {
    forall k :: k in order <==> k in m
  }

  /** A comment line of the output. */
  function Note(text: string): string { "; " + text }

  // In two halves: the verifier does not look to the end of a longer literal.
  function Heading(): string {
    Note("--- settings from your ini" + " with no matching template key ---")
  }

  function NotKnown(): string { Note("(not a recognised kvasilloni key)") }

  function Entry(k: string, v: string): seq<string> {
    if k in KNOWN_KEYS then [k + " = " + v] else [NotKnown(), k + " = " + v]
  }

  function Entries(order: seq<string>, m: map<string, string>): seq<string>
    requires forall k <- order :: k in m
  {
    if order == [] then [] else
    var front := order[..|order| - 1];
    Entries(front, m) + Entry(order[|order| - 1], m[order[|order| - 1]])
  }

  /** The lines `main` appends for what was left over. */
  function Section(order: seq<string>, left: map<string, string>): seq<string>
    requires forall k <- order :: k in left
  {
    ["", Heading()] + Entries(order, left)
  }

  /** The text `main` writes: the merged lines, then what was left over. */
  function Output(merged: seq<string>, order: seq<string>, left: map<string, string>): string
    requires forall k <- order :: k in left
  {
    var body := if left == map[] then Join(merged)
                else Join(merged) + "\n" + Join(Section(order, left));
    StripNewlines(body) + "\n"
  }

  lemma MarkedLine(s: string)
    requires s != "" && Marks(s[0])
    ensures IniLine(s) == None
  {
    assert Spaces(s) == 0;
    MarkedIsSkipped(s);
  }

  lemma NoteSkipped(text: string)
    requires OneLine(text)
    ensures IniLine(Note(text)) == None && OneLine(Note(text))
  {
    hide IniLine;
    MarkedLine(Note(text));
  }

  lemma HeadingSkipped()
    ensures IniLine(Heading()) == None && OneLine(Heading())
  {
    hide IniLine, Note;
    NoteSkipped("--- settings from your ini" + " with no matching template key ---");
  }

  lemma NotKnownSkipped()
    ensures IniLine(NotKnown()) == None && OneLine(NotKnown())
  {
    hide IniLine, Note;
    NoteSkipped("(not a recognised kvasilloni key)");
  }

  lemma SettingOneLine(k: string, v: string)
    requires OneLine(k) && OneLine(v)
    ensures OneLine(k + " = " + v)
  {}

  lemma GoodOneLine(k: string, v: string)
    requires GoodKey(k) && GoodValue(v)
    ensures OneLine(k) && OneLine(v)
  {}

  lemma LineMeansEntry(line: string, k: string, v: string)
    requires IniLine(line) == Some(Setting(k, v))
    ensures Meaning([line]) == map[k := v]
  {
    MeaningOne(line);
    hide IniLine, Meaning;
    assert map[][k := v] == map[k := v];
  }

  lemma EntryLine(k: string, v: string)
    requires GoodKey(k) && GoodValue(v)
    ensures Meaning([k + " = " + v]) == map[k := v] && OneLine(k + " = " + v)
  {
    GoodOneLine(k, v);
    hide *;
    SettingOneLine(k, v);
    EntryMeans(k, v);
    LineMeansEntry(k + " = " + v, k, v);
  }

  lemma EntryOk(k: string, v: string)
    requires GoodKey(k) && GoodValue(v)
    ensures Meaning(Entry(k, v)) == map[k := v]
    ensures forall l <- Entry(k, v) :: OneLine(l)
  {
    hide IniLine, Meaning, NotKnown, GoodKey, GoodValue, OneLine;
    EntryLine(k, v);
    NotKnownSkipped();
    AfterSkipped(NotKnown(), k + " = " + v);
    var line := k + " = " + v;
    assert k in KNOWN_KEYS ==> Entry(k, v) == [line];
    assert k !in KNOWN_KEYS ==> Entry(k, v) == [NotKnown(), line];
  }

  lemma AfterSkipped(skipped: string, line: string)
    requires IniLine(skipped) == None
    ensures Meaning([skipped, line]) == Meaning([line])
  {
    hide IniLine;
    MeaningOne(skipped);
    MeaningOne(line);
    MeaningAppend([skipped], [line]);
    assert [skipped, line] == [skipped] + [line];
  }

  function Picked(order: seq<string>, m: map<string, string>): map<string, string>
    requires forall k <- order :: k in m
  {
    map k | k in order :: m[k]
  }

  lemma PickedLast(front: seq<string>, k: string, m: map<string, string>)
    requires k in m && forall j <- front :: j in m
    ensures Picked(front + [k], m) == Picked(front, m) + map[k := m[k]]
  {}

  lemma {:induction false} EntriesMean(order: seq<string>, m: map<string, string>)
    requires GoodMap(m) && forall k <- order :: k in m
    ensures Meaning(Entries(order, m)) == Picked(order, m)
    ensures forall l <- Entries(order, m) :: OneLine(l)
  {
    hide Meaning, Entry, GoodKey, GoodValue, OneLine, Picked;
    if order == [] {
      NoEntries(m);
    } else {
      var front, k := order[..|order| - 1], order[|order| - 1];
      assert order == front + [k];
      EntriesMean(front, m);
      EntryOk(k, m[k]);
      PickedLast(front, k, m);
      MeaningAppend(Entries(front, m), Entry(k, m[k]));
    }
  }

  lemma NoEntries(m: map<string, string>)
    ensures Meaning([]) == Picked([], m)
  {}

  lemma {:induction false} MergedOneLine(template: seq<string>, user: map<string, string>)
    requires GoodMap(user) && forall l <- template :: OneLine(l)
    ensures forall l <- MergeLines(template, user).lines :: OneLine(l)
    ensures GoodMap(MergeLines(template, user).left)
  {
    if template != [] {
      var raw := template[0];
      hide GoodKey;
      if Wanted(raw, user.Keys) {
        var k := KeyOf(raw);
        MergedOneLine(template[1..], user - {k});
        SubstitutedOneLine(raw, user[k]);
      } else {
        MergedOneLine(template[1..], user);
      }
    }
  }

  lemma SubstitutedOneLine(raw: string, v: string)
    requires MatchKeyLine(raw).Some? && OneLine(raw) && OneLine(v)
    ensures OneLine(Substituted(MatchKeyLine(raw).value, v))
  {
    var m := MatchKeyLine(raw).value;
    MatchWithin(raw);
    hide MatchKeyLine, InlineAt;
    PieceOf(m.rest, InlineAt(m.rest), |m.rest|);
    JoinedOneLine(m.indent, m.key, v, m.rest[InlineAt(m.rest)..]);
  }

  lemma JoinedOneLine(indent: string, key: string, v: string, inline: string)
    requires OneLine(indent) && OneLine(key) && OneLine(v) && OneLine(inline)
    ensures OneLine(indent + key + " = " + v + inline)
  {}

  lemma MatchWithin(raw: string)
    requires MatchKeyLine(raw).Some?
    ensures var m := MatchKeyLine(raw).value;
      && (forall c <- m.indent :: c in raw) && (forall c <- m.key :: c in raw) && (forall c <- m.rest :: c in raw)
  {
    hide Spaces, WordEnd, Marks, MatchTail;
    var a := Spaces(raw);
    var r := raw[a..];
    var body := Unmark(r);
    var k := WordEnd(body);
    TailWithin(raw[..a], body[..k], body[k..]);
    UnmarkWithin(r);
    hide Unmark, MatchBody;
    PieceOf(raw, 0, a);
    PieceOf(raw, a, |raw|);
    PieceOf(body, 0, k);
    PieceOf(body, k, |body|);
  }

  lemma UnmarkWithin(r: string)
    ensures forall c <- Unmark(r) :: c in r
  {
    hide Spaces;
  }

  lemma TailWithin(indent: string, key: string, tail: string)
    requires MatchTail(indent, key, tail).Some?
    ensures var m := MatchTail(indent, key, tail).value;
      m.indent == indent && m.key == key && forall c <- m.rest :: c in tail
  {
    hide Spaces;
  }

  /** The appended section means the leftovers. */
  lemma SectionMeans(order: seq<string>, left: map<string, string>)
    requires GoodMap(left) && Enumerates(order, left)
    ensures MeaningOf(Join(Section(order, left))) == left
  {
    hide MeaningOf, Meaning, GoodMap, Heading, OneLine, Join, Picked;
    EntriesMean(order, left);
    PickedAll(order, left);
    HeadingMeans();
    var head, entries := ["", Heading()], Entries(order, left);
    MeaningAppend(head, entries);
    assert forall l <- head + entries :: l in head || l in entries;
    JoinMeans(head + entries);
  }

  lemma PickedAll(order: seq<string>, m: map<string, string>)
    requires Enumerates(order, m)
    ensures Picked(order, m) == m
  {}

  /** The output means the merged lines overridden by the leftovers. */
  lemma OutputMeans(merged: seq<string>, order: seq<string>, left: map<string, string>)
    requires GoodMap(left) && Enumerates(order, left)
    requires forall l <- merged :: OneLine(l)
    ensures MeaningOf(Output(merged, order, left)) == Meaning(merged) + left
  {
    hide MeaningOf, Meaning, GoodMap, Heading, OneLine, Join, StripNewlines, Section;
    JoinMeans(merged);
    var body := Join(merged);
    if left != map[] {
      var section := Join(Section(order, left));
      SectionMeans(order, left);
      TextAppend(body, section);
      body := body + "\n" + section;
    }
    StripMeans(body);
    TextAppend(StripNewlines(body), "");
    assert StripNewlines(body) + "\n" + "" == StripNewlines(body) + "\n";
    NothingMeans();
  }

  lemma NothingMeans()
    ensures MeaningOf("") == map[]
  {}

  lemma HeadingMeans()
    ensures Meaning(["", Heading()]) == map[] && OneLine("") && OneLine(Heading())
  {
    BlankLine();
    HeadingSkipped();
    hide IniLine, Heading;
    MeaningOne("");
    MeaningOne(Heading());
    MeaningAppend([""], [Heading()]);
    assert ["", Heading()] == [""] + [Heading()];
  }

  /** The template's later lines never contradict a known key the user set. */
  predicate NoLaterOverride(template: seq<string>, user: map<string, string>) {
    forall k <- user :: k in KNOWN_KEYS ==> !Overridden(template, k, user[k])
  }

  lemma KeyVerdict(t: seq<string>, u: map<string, string>, k: string)
    requires GoodMap(u)
    ensures var m := MergeLines(t, u);
      Get(Meaning(m.lines) + m.left, k) == Get(Meaning(t) + u, k)
      <==> (k in u && k in KNOWN_KEYS ==> !Overridden(t, k, u[k]))
  {
    MergeKey(t, u, k);
    FinalIs(t, k, if k in u then u[k] else "");
    hide Meaning, MergeLines, Overridden, HasKeyLine, Final;
  }

  /** The merged lines with the leftovers mean what is wanted exactly when no later line
      interferes. */
  lemma MergedMeans(t: seq<string>, u: map<string, string>)
    requires GoodMap(u)
    ensures var m := MergeLines(t, u);
      Meaning(m.lines) + m.left == Meaning(t) + u <==> NoLaterOverride(t, u)
  {
    hide Meaning, MergeLines, Overridden, GoodMap, Get;
    var m := MergeLines(t, u);
    forall k
      ensures Get(Meaning(m.lines) + m.left, k) == Get(Meaning(t) + u, k)
        <==> (k in u && k in KNOWN_KEYS ==> !Overridden(t, k, u[k]))
    {
      KeyVerdict(t, u, k);
    }
    SameMaps(Meaning(m.lines) + m.left, Meaning(t) + u);
  }

  /** What the merge of two texts works on, and leaves. */
  lemma MergeReady(template: Text, userText: Text)
    ensures GoodMap(MeaningOf(userText))
    ensures GoodMap(MergeLines(SplitLines(template), MeaningOf(userText)).left)
    ensures forall l <- MergeLines(SplitLines(template), MeaningOf(userText)).lines :: OneLine(l)
  {
    hide Meaning, SplitLines, OneLine, GoodKey, GoodValue;
    SplitOneLine(template);
    SplitOneLine(userText);
    MeaningGood(SplitLines(userText));
    MergedOneLine(SplitLines(template), MeaningOf(userText));
  }

  /** INI migration preserves meaning exactly when no template line after the first key
      line of a known key the user set gives that key another value: then, and only
      then, the output reads as the template overridden by the user's settings. */
  lemma MigrationMeans(template: Text, userText: Text, order: seq<string>)
    requires Enumerates(order, MergeLines(SplitLines(template), MeaningOf(userText)).left)
    ensures var m := MergeLines(SplitLines(template), MeaningOf(userText));
      MeaningOf(Output(m.lines, order, m.left)) == MeaningOf(template) + MeaningOf(userText)
      <==> NoLaterOverride(SplitLines(template), MeaningOf(userText))
  {
    hide Meaning, MergeLines, GoodMap, NoLaterOverride, SplitLines, OneLine, Output, Plain;
    var t, u := SplitLines(template), MeaningOf(userText);
    var m := MergeLines(t, u);
    MergeReady(template, userText);
    OutputMeans(m.lines, order, m.left);
    MergedMeans(t, u);
  }

  lemma SameMaps(a: map<string, string>, b: map<string, string>)
    ensures a == b <==> forall k :: Get(a, k) == Get(b, k)
  {
    if forall k :: Get(a, k) == Get(b, k) {
      forall k
        ensures k in a <==> k in b
        ensures k in a ==> a[k] == b[k]
      {
        assert Get(a, k) == Get(b, k);
      }
    }
  }

  lemma {:induction false} JoinNoCr(lines: seq<string>)
    requires forall l <- lines :: OneLine(l)
    ensures '\r' !in Join(lines)
  {
    if lines != [] {
      assert lines[0] in lines;
      JoinNoCr(lines[1..]);
    }
  }

  lemma {:induction false} StripKeeps(s: string)
    requires '\r' !in s
    ensures '\r' !in StripNewlines(s)
  {
    if s != "" && s[|s| - 1] == '\n' {
      StripKeeps(s[..|s| - 1]);
    }
  }

  lemma NoCrIsRead(s: string)
    requires '\r' !in s
    ensures CrBeforeLf(s) && Universal(s) == s
  {
    UniversalHead(s, "");
    assert s + "" == s;
  }

  /** What is written has no CR, so it is read back as it is; a platform that writes every
      LF as CR LF is covered by `FilesMigrate` too. */
  lemma WrittenAsIs(merged: seq<string>, order: seq<string>, left: map<string, string>)
    requires GoodMap(left) && Enumerates(order, left) && forall l <- merged :: OneLine(l)
    ensures CrBeforeLf(Output(merged, order, left)) && Universal(Output(merged, order, left)) == Output(merged, order, left)
  {
    hide GoodMap, OneLine, Join, StripNewlines, Section, Universal, CrBeforeLf;
    JoinNoCr(merged);
    var body := Join(merged);
    if left != map[] {
      SectionLines(order, left);
      JoinNoCr(Section(order, left));
      body := body + "\n" + Join(Section(order, left));
    }
    StripKeeps(body);
    NoCrIsRead(Output(merged, order, left));
  }

  /** The settings `parse_ini` reads of a file. */
  function Settings(file: string): map<string, string> { Meaning(RustLines(file)) }

  /** From file to file, with either kind of line end on either side: what `parse_ini`
      reads of the migrated file, written with any line ends, is what it reads of the
      template overridden by what it reads of the user's file, exactly under the same
      condition; and the text as generated is such a file. */
  lemma FilesMigrate(template: File, user: File, order: seq<string>, written: string)
    requires CrBeforeLf(written)
    requires var m := MergeLines(SplitLines(Universal(template)), MeaningOf(Universal(user)));
      Enumerates(order, m.left) && Universal(written) == Output(m.lines, order, m.left)
    ensures Settings(written) == Settings(template) + Settings(user)
      <==> NoLaterOverride(SplitLines(Universal(template)), MeaningOf(Universal(user)))
  {
    hide MeaningOf, MergeLines, NoLaterOverride, Output, Universal, RustLines, SplitLines, CrBeforeLf;
    ReadIsText(template);
    ReadIsText(user);
    MigrationMeans(Universal(template), Universal(user), order);
    ReadBack(template);
    ReadBack(user);
    ReadBack(written);
  }

  lemma ReadBack(s: string)
    requires CrBeforeLf(s)
    ensures Settings(s) == MeaningOf(Universal(s))
  {
    SameLines(s);
  }

  ghost predicate AtMostOneLine(template: seq<string>, k: string) {
    forall i, j :: 0 <= i < j < |template| && Matches(template[i], k) ==> !Matches(template[j], k)
  }

  lemma {:induction false} SetByALine(lines: seq<string>, k: string)
    requires k in Meaning(lines) && k in KNOWN_KEYS
    ensures exists i :: 0 <= i < |lines| && Matches(lines[i], k)
  {
    hide IniLine, Matches;
    var n := |lines| - 1;
    if IniLine(lines[n]).Some? && IniLine(lines[n]).value.key == k {
      ActiveMatches(lines[n]);
    } else {
      SetByALine(lines[..n], k);
      var i :| 0 <= i < n && Matches(lines[..n][i], k);
      assert Matches(lines[i], k);
    }
  }

  lemma LaterLine(template: seq<string>, k: string)
    requires template != [] && Matches(template[0], k)
    requires k in Meaning(template[1..]) && k in KNOWN_KEYS
    ensures !AtMostOneLine(template, k)
  {
    hide Matches, Meaning;
    SetByALine(template[1..], k);
    var i: nat :| i < |template[1..]| && Matches(template[1..][i], k);
    assert Matches(template[i + 1], k);
  }

  lemma {:induction false} OneLineNeverOverridden(template: seq<string>, k: string, v: string)
    requires AtMostOneLine(template, k) && k in KNOWN_KEYS
    ensures !Overridden(template, k, v)
  {
    hide Matches, Meaning;
    if template != [] {
      var rest := template[1..];
      if Matches(template[0], k) {
        if k in Meaning(rest) {
          LaterLine(template, k);
        }
      } else {
        assert forall i :: 0 <= i < |rest| ==> rest[i] == template[i + 1];
        OneLineNeverOverridden(rest, k, v);
      }
    }
  }

  /** So with at most one key line per known key in the template, the migration always
      preserves the meaning; and every user key is applied or passed through. */
  lemma MigrationPreserves(template: Text, userText: Text, order: seq<string>)
    requires forall k <- KNOWN_KEYS :: AtMostOneLine(SplitLines(template), k)
    requires Enumerates(order, MergeLines(SplitLines(template), MeaningOf(userText)).left)
    ensures var m := MergeLines(SplitLines(template), MeaningOf(userText));
      && MeaningOf(Output(m.lines, order, m.left)) == MeaningOf(template) + MeaningOf(userText)
      && |m.applied| + |m.left| == |MeaningOf(userText)|
      && |m.lines| == |SplitLines(template)|
  {
    var t, u := SplitLines(template), MeaningOf(userText);
    forall k <- u | k in KNOWN_KEYS
      ensures !Overridden(t, k, u[k])
    {
      OneLineNeverOverridden(t, k, u[k]);
    }
    MigrationMeans(template, userText, order);
    MergeCounts(t, u);
  }

  // ------------------------------------------------- where the meaning is lost

  lemma HostIsGood()
    ensures GoodKey("host") && GoodValue("a") && GoodValue("b") && GoodValue("c") && "host" in KNOWN_KEYS
  {
    assert Lower("host") == "host";
    NoComment("a");
    NoComment("b");
    NoComment("c");
  }

  const FIRST: Text := "host" + " = " + "a"
  const SECOND: Text := "host" + " = " + "b"
  const TWICE: Text := FIRST + "\n" + SECOND
  const CHOICE: Text := "host" + " = " + "c"

  lemma TwiceIs()
    ensures SplitLines(TWICE) == [FIRST, SECOND] && SplitLines(CHOICE) == [CHOICE]
    ensures MeaningOf(CHOICE) == map["host" := "c"]
    ensures IniLine(FIRST) == Some(Setting("host", "a")) && IniLine(SECOND) == Some(Setting("host", "b"))
  {
    hide IniLine, GoodKey, GoodValue, Lower, SplitLines, Meaning;
    HostIsGood();
    EntryMeans("host", "a");
    EntryMeans("host", "b");
    EntryMeans("host", "c");
    SplitAlone(SECOND);
    SplitAlone(CHOICE);
    SplitFirst(FIRST, SECOND);
    MeaningOne(CHOICE);
  }

  lemma SplitAlone(l: string)
    requires OneLine(l) && l != ""
    ensures SplitLines(l) == [l]
  {
    assert l[..IndexOf(l, '\n')] == l;
  }

  lemma SecondWins()
    ensures Overridden([FIRST, SECOND], "host", "c") && HasKeyLine([FIRST, SECOND], "host")
  {
    TwiceIs();
    HostIsGood();
    hide IniLine, Matches, Meaning, GoodKey, GoodValue, SplitLines, MeaningOf;
    ActiveMatches(FIRST);
    MeaningOne(SECOND);
    assert [FIRST, SECOND][1..] == [SECOND];
    assert Matches([FIRST, SECOND][0], "host");
  }

  /** The condition bites. Template and user's file are real texts: the template sets the
      same known key twice, all of the user's file is applied, and the text written does
      not mean the template overridden by the user's setting. */
  lemma LaterLineInterferes()
    ensures MergeLines(SplitLines(TWICE), MeaningOf(CHOICE)).left == map[]
    ensures MeaningOf(Output(MergeLines(SplitLines(TWICE), MeaningOf(CHOICE)).lines, [], map[]))
         != MeaningOf(TWICE) + MeaningOf(CHOICE)
  {
    TwiceIs();
    SecondWins();
    HostIsGood();
    hide IniLine, Meaning, MergeLines, GoodKey, GoodValue, SplitLines, MeaningOf, Overridden, Output, HasKeyLine;
    var t, u := SplitLines(TWICE), MeaningOf(CHOICE);
    var m := MergeLines(t, u);
    forall k
      ensures k !in m.left
    {
      MergeKey(t, u, k);
    }
    MigrationMeans(TWICE, CHOICE, []);
    assert "host" in u && u["host"] == "c";
  }

  // ---------------------------------------------------- the lines of the output

  function DropBlanks(lines: seq<string>): (r: seq<string>)
    ensures r <= lines && (r == lines <==> lines == [] || lines[|lines| - 1] != "")
  {
    if lines != [] && lines[|lines| - 1] == "" then DropBlanks(lines[..|lines| - 1]) else lines
  }

  /** A text has at least one line, if only a blank one. */
  function OrBlank(lines: seq<string>): seq<string> { if lines == [] then [""] else lines }

  lemma {:induction false} JoinAppend(a: seq<string>, b: seq<string>)
    requires a != [] && b != []
    ensures Join(a + b) == Join(a) + "\n" + Join(b)
  {
    if |a| == 1 {
      assert (a + b)[1..] == b;
    } else {
      JoinAppend(a[1..], b);
      assert (a + b)[1..] == a[1..] + b;
      Glue(a[0], Join(a[1..]), Join(b));
    }
  }

  lemma Glue(x: string, y: string, z: string)
    ensures x + "\n" + (y + "\n" + z) == (x + "\n" + y) + "\n" + z
  {}

  /** Stripping the joined text's final newlines drops its final blank lines. */
  lemma {:induction false} StripJoined(lines: seq<string>)
    requires forall l <- lines :: OneLine(l)
    ensures StripNewlines(Join(lines)) == Join(DropBlanks(lines))
  {
    if lines != [] {
      var front, l := lines[..|lines| - 1], lines[|lines| - 1];
      assert lines == front + [l];
      if front != [] {
        JoinAppend(front, [l]);
      }
      if l == "" {
        StripJoined(front);
        assert Join(front) + "\n" + "" == Join(front) + "\n";
        assert (Join(front) + "\n")[..|Join(front)|] == Join(front);
      } else {
        assert l in lines && l[|l| - 1] in l;
        assert Join(lines)[|Join(lines)| - 1] == l[|l| - 1];
      }
    }
  }

  lemma {:induction false} SplitJoined(lines: seq<string>)
    requires forall l <- lines :: OneLine(l)
    ensures SplitLines(Join(lines) + "\n") == OrBlank(lines)
  {
    hide SplitLines;
    SplitNothing();
    assert lines != [] ==> lines[0] in lines;
    if lines == [] {
      SplitFirst("", "");
      assert "" + "\n" + "" == "\n" == Join(lines) + "\n";
    } else if |lines| == 1 {
      SplitFirst(lines[0], "");
      assert lines[0] + "\n" + "" == lines[0] + "\n";
      assert lines == [lines[0]] + [];
    } else {
      SplitJoined(lines[1..]);
      SplitFirst(lines[0], Join(lines[1..]) + "\n");
      assert lines[0] + "\n" + (Join(lines[1..]) + "\n") == Join(lines) + "\n";
      assert lines == [lines[0]] + lines[1..];
    }
  }

  lemma SplitNothing()
    ensures SplitLines("") == []
  {}

  lemma StrippedLines(lines: seq<string>)
    requires forall l <- lines :: OneLine(l)
    ensures SplitLines(StripNewlines(Join(lines)) + "\n") == OrBlank(DropBlanks(lines))
  {
    hide SplitLines, StripNewlines, Join;
    StripJoined(lines);
    assert DropBlanks(lines) <= lines;
    forall l | l in DropBlanks(lines)
      ensures OneLine(l)
    {
      assert l in lines;
    }
    SplitJoined(DropBlanks(lines));
  }

  lemma SectionLines(order: seq<string>, left: map<string, string>)
    requires GoodMap(left) && Enumerates(order, left) && left != map[]
    ensures forall l <- Section(order, left) :: OneLine(l)
    ensures Section(order, left) != [] && Section(order, left)[|Section(order, left)| - 1] != ""
  {
    hide Meaning, MeaningOf, GoodMap, OneLine, Heading, Picked;
    EntriesMean(order, left);
    HeadingMeans();
    var any :| any in left;
    assert any in order;
    hide NotKnown;
  }

  /** What the lines of the written text are: with leftovers the merged lines and the
      appended section; without, the merged lines up to the blank ones at the end. A
      text of no lines is written as one blank line. */
  lemma WrittenLines(merged: seq<string>, order: seq<string>, left: map<string, string>)
    requires GoodMap(left) && Enumerates(order, left) && forall l <- merged :: OneLine(l)
    ensures SplitLines(Output(merged, order, left)) ==
      if left == map[] then OrBlank(DropBlanks(merged)) else OrBlank(merged) + Section(order, left)
  {
    hide SplitLines, StripNewlines, GoodMap, Section;
    if left == map[] {
      StrippedLines(merged);
    } else {
      SectionLines(order, left);
      var section := Section(order, left);
      var all := OrBlank(merged) + section;
      JoinAppend(OrBlank(merged), section);
      StrippedLines(all);
      assert all[|all| - 1] == section[|section| - 1];
      assert DropBlanks(all) == all;
    }
  }

  /** An emitted key line is never blank, nor is the line it replaces. */
  lemma NotBlank(raw: string, v: string)
    requires MatchKeyLine(raw).Some?
    ensures raw != "" && Substituted(MatchKeyLine(raw).value, v) != ""
  {
    var m := MatchKeyLine(raw).value;
    hide InlineAt;
  }

  lemma {:induction false} SameBlanks(template: seq<string>, user: map<string, string>)
    ensures var lines := MergeLines(template, user).lines;
      |lines| == |template| && forall i :: 0 <= i < |lines| ==> (lines[i] == "" <==> template[i] == "")
  {
    hide MatchKeyLine, Substituted;
    if template != [] {
      if Wanted(template[0], user.Keys) {
        var k := KeyOf(template[0]);
        NotBlank(template[0], user[k]);
        SameBlanks(template[1..], user - {k});
      } else {
        SameBlanks(template[1..], user);
      }
    }
  }

  /** No final blank lines to lose, and a line to keep. */
  predicate EndsInText(template: seq<string>) {
    template == [""] || (template != [] && template[|template| - 1] != "")
  }

  /** The template's line count in the written text. With leftovers every template line
      is there, before the appended section (an empty template counts as one blank
      line). Without, the count is kept if and only if the template does not end in a
      blank line, but for a template of just one; and then the lines are the merged ones. */
  lemma LineCountKept(template: Text, userText: Text, order: seq<string>)
    requires Enumerates(order, MergeLines(SplitLines(template), MeaningOf(userText)).left)
    ensures var t := SplitLines(template);
      var m := MergeLines(t, MeaningOf(userText));
      var written := SplitLines(Output(m.lines, order, m.left));
      if m.left != map[] then
        written == OrBlank(m.lines) + Section(order, m.left) && |OrBlank(m.lines)| == |OrBlank(t)|
      else
        (|written| == |t| <==> EndsInText(t)) && (EndsInText(t) ==> written == m.lines)
  {
    hide Meaning, MeaningOf, MergeLines, GoodMap, SplitLines, OneLine, Output, Section, Plain, DropBlanks;
    var t, u := SplitLines(template), MeaningOf(userText);
    var m := MergeLines(t, u);
    MergeReady(template, userText);
    SameBlanks(t, u);
    WrittenLines(m.lines, order, m.left);
    BlanksCount(m.lines);
    assert EndsInText(t) <==> EndsInText(m.lines) by {
      assert |t| == 1 ==> (t == [""] <==> t[0] == "") && (m.lines == [""] <==> m.lines[0] == "");
    }
  }

  lemma BlanksCount(lines: seq<string>)
    ensures |OrBlank(DropBlanks(lines))| == |lines| <==> EndsInText(lines)
    ensures EndsInText(lines) ==> OrBlank(DropBlanks(lines)) == lines
  {
    if lines == [""] {
      assert DropBlanks([]) == [];
    }
  }

  const BLANK_TAIL: Text := "a" + "\n" + "\n"

  lemma OneLines()
    ensures OneLine("a") && OneLine("") && GoodMap(map[])
  {}

  /** A template of two lines, the second blank, is written as one. */
  lemma BlankTailLost()
    ensures SplitLines(BLANK_TAIL) == ["a", ""]
    ensures MergeLines(SplitLines(BLANK_TAIL), MeaningOf("")).left == map[]
    ensures |SplitLines(Output(MergeLines(SplitLines(BLANK_TAIL), MeaningOf("")).lines, [], map[]))| == 1
  {
    hide SplitLines, MeaningOf, MergeLines, Output, Meaning, OneLine, GoodMap;
    SplitNothing();
    SplitFirst("", "");
    assert "" + "\n" + "" == "\n";
    SplitFirst("a", "\n");
    NothingMeans();
    OneLines();
    var m := MergeLines(["a", ""], map[]);
    MergeCounts(["a", ""], map[]);
    assert m.left.Keys == {} && m.left == map[];
    assert SplitLines(BLANK_TAIL) == ["a", ""];
    SameBlanks(["a", ""], map[]);
    LineCountKept(BLANK_TAIL, "", []);
    MergedOneLine(["a", ""], map[]);
    WrittenLines(m.lines, [], m.left);
    assert DropBlanks(m.lines) == m.lines[..1] by {
      assert m.lines[..1][0] != "";
    }
  }
}
