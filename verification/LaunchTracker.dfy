/**
 The launch-evidence tracker: a line parser with carried state, the renderer it inverts,
 and the release check built on it. A tracker text is the sequence of its lines.
 */
module LaunchTracker {
  import opened Wrappers
  import opened Text

  datatype LaunchItem = LaunchItem(status: string, owner: string, artifactLinks: seq<string>)

  /** The parser's state: the items so far, the item under the last header, and whether its links are being read. */
  datatype Parser = Parser(items: map<string, LaunchItem>, current: Option<string>, inArtifacts: bool)

  /** How a claimed line starts: a dash, the key's word, a colon. */
  function KeyLead(word: string): string {
    "- " + word + ":"
  }

  /** The words of the three keys the parser claims. */
  datatype Words = Words(status: string, owner: string, links: string)

  const TRACKER_WORDS := Words("Status", "Owner", "Artifact links")

  predicate PlainWord(word: string) {
    ':' !in word && '`' !in word
  }

  /** Three different words without colons or backticks: all that parsing back relies on. */
  predicate WellWorded(w: Words) {
    && w.status != w.owner && w.status != w.links && w.owner != w.links
    && PlainWord(w.status) && PlainWord(w.owner) && PlainWord(w.links)
  }

  lemma TrackerWordsAreWellWorded()
    ensures WellWorded(TRACKER_WORDS)
  {
  }

  // ---------------------------------------------------------------------------
  // Reading a line
  // ---------------------------------------------------------------------------

  predicate IsDigit(c: char) {
    '0' <= c <= '9'
  }

  /** An `L` followed by one or more digits. */
  predicate IsItemId(s: string) {
    |s| >= 2 && s[0] == 'L' && forall i | 1 <= i < |s| :: IsDigit(s[i])
  }

  /** The item id of a header line: three hashes, blanks, an id. */
  function HeaderId(line: string): Option<string> {
    var s := Trim(line);
    if "###" <= s then
      var id := TrimLeft(s[3..]);
      if |id| < |s| - 3 && IsItemId(id) then Some(id) else None
    else None
  }

  /** The text before the first occurrence of a character, or all of it. */
  function Before(s: string, c: char): (r: string)
    ensures |r| <= |s| && c !in r
    ensures c in s <==> |r| < |s|
    ensures c in s ==> s[|r|] == c
    ensures s[..|r|] == r
  {
    if s == "" || s[0] == c then ""
    else
      var rest := Before(s[1..], c);
      assert s[..|rest| + 1] == [s[0]] + s[1..][..|rest|];
      [s[0]] + rest
  }

  /** The trimmed text of the first non-empty pair of backticks, or the empty string. */
  function BacktickValue(s: string): string
    decreases |s|
  {
    if '`' !in s then ""
    else
      var rest := s[|Before(s, '`')| + 1..];
      if '`' !in rest then ""
      else
        var inner := Before(rest, '`');
        if inner != "" then Trim(inner) else BacktickValue(rest)
  }

  /** What follows the first colon, if there is one. */
  function AfterColon(line: string): string {
    if ':' in line then line[|Before(line, ':')| + 1..] else ""
  }

  /** The value of an artifact line: after the colon, trimmed, and without enclosing backticks. */
  function ArtifactValue(line: string): string {
    Unquoted(Trim(AfterColon(line)))
  }

  function Unquoted(value: string): string {
    if value != "" && value[0] == '`' && value[|value| - 1] == '`' then
      if |value| >= 2 then Trim(value[1..|value| - 1]) else ""
    else value
  }

  /** What a line is to the parser. */
  datatype Line = Header(id: string) | StatusIs(v: string) | OwnerIs(v: string) | LinksFollow | LinkIs(v: string) | Blank | OtherText

  function Classify(w: Words, line: string): Line {
    var stripped := Trim(line);
    if HeaderId(line).Some? then Header(HeaderId(line).value)
    else if KeyLead(w.status) <= stripped then StatusIs(BacktickValue(stripped))
    else if KeyLead(w.owner) <= stripped then OwnerIs(BacktickValue(stripped))
    else if KeyLead(w.links) <= stripped then LinksFollow
    else if "  - " <= line then LinkIs(ArtifactValue(line))
    else if stripped == "" then Blank
    else OtherText
  }

  function Take(p: Parser, line: Line): Parser {
    if line.Header? then Parser(p.items[line.id := LaunchItem("", "", [])], Some(line.id), false)
    else if p.current.None? || p.current.value !in p.items then p
    else
      var id := p.current.value;
      var item := p.items[id];
      match line
      case StatusIs(v) => p.(items := p.items[id := item.(status := v)], inArtifacts := false)
      case OwnerIs(v) => p.(items := p.items[id := item.(owner := v)], inArtifacts := false)
      case LinksFollow => p.(inArtifacts := true)
      case LinkIs(v) =>
        if p.inArtifacts then p.(items := p.items[id := item.(artifactLinks := item.artifactLinks + [v])]) else p
      case OtherText => p.(inArtifacts := false)
      case Blank => p
  }

  function Read(w: Words, p: Parser, line: string): Parser {
    Take(p, Classify(w, line))
  }

  function ReadAll(w: Words, p: Parser, lines: seq<string>): Parser
    decreases |lines|
  {
    if lines == [] then p else ReadAll(w, Read(w, p, lines[0]), lines[1..])
  }

  function ParseTracker(w: Words, lines: seq<string>): map<string, LaunchItem> {
    ReadAll(w, Parser(map[], None, false), lines).items
  }

  // ---------------------------------------------------------------------------
  // The renderer
  // ---------------------------------------------------------------------------

  datatype Artifact = Artifact(key: string, value: string)

  datatype Entry = Entry(id: string, status: string, owner: string, artifacts: seq<Artifact>)

  function Quoted(v: string): string {
    " `" + v + "`"
  }

  function RenderArtifact(a: Artifact): string {
    "  " + KeyLead(a.key) + Quoted(a.value)
  }

  function RenderArtifacts(artifacts: seq<Artifact>): seq<string> {
    if artifacts == [] then [] else [RenderArtifact(artifacts[0])] + RenderArtifacts(artifacts[1..])
  }

  function RenderHead(w: Words, e: Entry): seq<string> {
    ["### " + e.id, KeyLead(w.status) + Quoted(e.status), KeyLead(w.owner) + Quoted(e.owner), KeyLead(w.links)]
  }

  function Render(w: Words, entries: seq<Entry>): seq<string> {
    if entries == [] then []
    else RenderHead(w, entries[0]) + RenderArtifacts(entries[0].artifacts) + Render(w, entries[1..])
  }

  function Values(artifacts: seq<Artifact>): (vs: seq<string>)
    ensures |vs| == |artifacts| && forall i | 0 <= i < |artifacts| :: vs[i] == artifacts[i].value
  {
    seq(|artifacts|, i requires 0 <= i < |artifacts| => artifacts[i].value)
  }

  function ItemOf(e: Entry): LaunchItem {
    LaunchItem(e.status, e.owner, Values(e.artifacts))
  }

  /** A colon-free key that the parser does not claim for itself, and a trimmed value. */
  predicate PlainArtifact(w: Words, a: Artifact) {
    && ':' !in a.key && a.key != w.status && a.key != w.owner && a.key != w.links
    && Trimmed(a.value)
  }

  predicate PlainEntry(w: Words, e: Entry) {
    && IsItemId(e.id)
    && '`' !in e.status && Trimmed(e.status)
    && '`' !in e.owner && Trimmed(e.owner)
    && forall a | a in e.artifacts :: PlainArtifact(w, a)
  }

  // ---------------------------------------------------------------------------
  // Parsing undoes rendering
  // ---------------------------------------------------------------------------

  lemma HeaderLine(id: string)
    requires IsItemId(id)
    ensures HeaderId("### " + id) == Some(id)
  {
    var s := "### " + id;
    TrimIsTrimmed(s);
    assert s[3..] == " " + id;
    TrimLeftOf(" ", id);
  }

  lemma BeforeOf(pre: string, c: char, tail: string)
    requires c !in pre
    ensures Before(pre + [c] + tail, c) == pre
  {
    var s := pre + [c] + tail;
    var r := Before(s, c);
    assert s[|pre|] == c && s[..|pre|] == pre;
    assert forall i | 0 <= i < |pre| :: s[i] == s[..|pre|][i];
    assert forall i | 0 <= i < |r| :: s[i] == s[..|r|][i];
  }

  lemma BacktickValueOf(pre: string, v: string)
    requires '`' !in pre && '`' !in v && Trimmed(v)
    ensures BacktickValue(pre + "`" + v + "`") == v
  {
    var s := pre + "`" + v + "`";
    assert s == pre + ['`'] + (v + "`");
    BeforeOf(pre, '`', v + "`");
    var rest := s[|pre| + 1..];
    assert rest == v + ['`'] + "";
    BeforeOf(v, '`', "");
    assert s[|pre|] == '`' && rest[|v|] == '`';
    TrimIsTrimmed(v);
    if v == "" {
      assert rest[|Before(rest, '`')| + 1..] == "";
    }
  }

  lemma DashIsNoHeader(line: string)
    requires Trim(line) != "" && Trim(line)[0] == '-'
    ensures HeaderId(line) == None
  {
    assert "###"[0] == '#';
  }

  /** A dash line is claimed by a key exactly when the text before its first colon is that key's word. */
  lemma ClaimedExactly(key: string, tail: string, word: string)
    requires ':' !in key && ':' !in word
    ensures KeyLead(word) <= KeyLead(key) + tail <==> key == word
  {
    var s := KeyLead(key) + tail;
    if KeyLead(word) <= s {
      var rest := s[|word| + 3..];
      assert s == KeyLead(word) + rest;
      BeforeOf("- " + key, ':', tail);
      BeforeOf("- " + word, ':', rest);
      assert s == ("- " + key) + [':'] + tail == ("- " + word) + [':'] + rest;
      assert ("- " + key)[2..] == key && ("- " + word)[2..] == word;
    }
  }

  /** What the parser makes of a rendered status or owner. */
  function KeyValue(word: string, v: string): string {
    BacktickValue(KeyLead(word) + Quoted(v))
  }

  lemma KeyLine(word: string, v: string)
    ensures var line := KeyLead(word) + Quoted(v); Trim(line) == line && HeaderId(line) == None
  {
    var line := KeyLead(word) + Quoted(v);
    assert line[0] == '-' && line[|line| - 1] == '`';
    TrimIsTrimmed(line);
    DashIsNoHeader(line);
  }

  lemma StatusLine(w: Words, v: string)
    requires WellWorded(w)
    ensures Classify(w, KeyLead(w.status) + Quoted(v)) == StatusIs(KeyValue(w.status, v))
  {
    KeyLine(w.status, v);
  }

  lemma OwnerLine(w: Words, v: string)
    requires WellWorded(w)
    ensures Classify(w, KeyLead(w.owner) + Quoted(v)) == OwnerIs(KeyValue(w.owner, v))
  {
    KeyLine(w.owner, v);
    ClaimedExactly(w.owner, Quoted(v), w.status);
  }

  lemma {:induction false} BacktickValueShape(s: string)
    ensures '`' !in BacktickValue(s) && Trimmed(BacktickValue(s))
    decreases |s|
  {
    if '`' in s {
      var rest := s[|Before(s, '`')| + 1..];
      if '`' in rest {
        var inner := Before(rest, '`');
        if inner != "" {
          TrimIsTrimmed(inner);
          TrimIsPart(inner);
        } else {
          BacktickValueShape(rest);
        }
      }
    }
  }

  lemma KeyQuotes(word: string, v: string)
    ensures KeyLead(word) + Quoted(v) == (KeyLead(word) + " ") + "`" + v + "`"
  {
  }

  /** A quoted value comes back exactly when it is trimmed and free of backticks. */
  lemma KeyValueExactly(word: string, v: string)
    requires PlainWord(word)
    ensures KeyValue(word, v) == v <==> '`' !in v && Trimmed(v)
  {
    if '`' !in v && Trimmed(v) {
      KeyQuotes(word, v);
      BacktickValueOf(KeyLead(word) + " ", v);
    } else {
      BacktickValueShape(KeyLead(word) + Quoted(v));
    }
  }

  lemma LinksLine(w: Words)
    requires WellWorded(w)
    ensures Classify(w, KeyLead(w.links)) == LinksFollow
  {
    var line := KeyLead(w.links);
    assert line[0] == '-' && line[|line| - 1] == ':';
    TrimIsTrimmed(line);
    DashIsNoHeader(line);
    assert line == line + "";
    ClaimedExactly(w.links, "", w.status);
    ClaimedExactly(w.links, "", w.owner);
  }

  lemma ReadsLine(w: Words, p: Parser, line: string, rest: seq<string>)
    ensures ReadAll(w, p, [line] + rest) == ReadAll(w, Read(w, p, line), rest)
  {
    assert ([line] + rest)[1..] == rest;
  }

  lemma ReadsFour(w: Words, p: Parser, l0: string, l1: string, l2: string, l3: string)
    ensures ReadAll(w, p, [l0, l1, l2, l3]) == Read(w, Read(w, Read(w, Read(w, p, l0), l1), l2), l3)
  {
    var r3 := [l3] + [];
    var r2 := [l2] + r3;
    var r1 := [l1] + r2;
    assert [l0, l1, l2, l3] == [l0] + r1;
    ReadsLine(w, p, l0, r1);
    ReadsLine(w, Read(w, p, l0), l1, r2);
    ReadsLine(w, Read(w, Read(w, p, l0), l1), l2, r3);
    ReadsLine(w, Read(w, Read(w, Read(w, p, l0), l1), l2), l3, []);
  }

  lemma TakesHead(p: Parser, id: string, status: string, owner: string)
    ensures Take(Take(Take(Take(p, Header(id)), StatusIs(status)), OwnerIs(owner)), LinksFollow)
            == Parser(p.items[id := LaunchItem(status, owner, [])], Some(id), true)
  {
    var m0 := p.items[id := LaunchItem("", "", [])];
    var m1 := m0[id := LaunchItem(status, "", [])];
    var m2 := m1[id := LaunchItem(status, owner, [])];
    assert m2 == p.items[id := LaunchItem(status, owner, [])];
  }

  lemma HeadKinds(w: Words, e: Entry)
    requires WellWorded(w) && IsItemId(e.id)
    ensures Classify(w, "### " + e.id) == Header(e.id)
    ensures Classify(w, KeyLead(w.status) + Quoted(e.status)) == StatusIs(KeyValue(w.status, e.status))
    ensures Classify(w, KeyLead(w.owner) + Quoted(e.owner)) == OwnerIs(KeyValue(w.owner, e.owner))
    ensures Classify(w, KeyLead(w.links)) == LinksFollow
  {
    HeaderLine(e.id);
    StatusLine(w, e.status);
    OwnerLine(w, e.owner);
    LinksLine(w);
  }

  /** The parser after the head of an entry: a fresh item, its links to follow. */
  function Headed(w: Words, p: Parser, e: Entry): Parser {
    Parser(p.items[e.id := LaunchItem(KeyValue(w.status, e.status), KeyValue(w.owner, e.owner), [])], Some(e.id), true)
  }

  /** The head of a rendered entry starts a fresh item and leaves the parser reading its links. */
  lemma ReadsHead(w: Words, p: Parser, e: Entry)
    requires WellWorded(w) && IsItemId(e.id)
    ensures ReadAll(w, p, RenderHead(w, e)) == Headed(w, p, e)
  {
    HeadKinds(w, e);
    TakesHead(p, e.id, KeyValue(w.status, e.status), KeyValue(w.owner, e.owner));
    var head := RenderHead(w, e);
    ReadsFour(w, p, head[0], head[1], head[2], head[3]);
  }

  lemma TrimOf(pad: string, s: string)
    requires Trimmed(s) && s != "" && forall i | 0 <= i < |pad| :: IsSpace(pad[i])
    ensures Trim(pad + s) == s
  {
    TrimLeftOf(pad, s);
    TrimIsTrimmed(s);
    assert TrimRight(s) == s;
  }

  lemma AfterColonOf(pre: string, tail: string)
    requires ':' !in pre
    ensures AfterColon(pre + [':'] + tail) == tail
  {
    var line := pre + [':'] + tail;
    BeforeOf(pre, ':', tail);
    assert line[|pre|] == ':';
    assert line[|pre| + 1..] == tail;
  }

  lemma ArtifactBody(a: Artifact)
    ensures Trim(RenderArtifact(a)) == KeyLead(a.key) + Quoted(a.value)
    ensures HeaderId(RenderArtifact(a)) == None
  {
    var body := KeyLead(a.key) + Quoted(a.value);
    assert RenderArtifact(a) == "  " + body;
    assert body[0] == '-' && body[|body| - 1] == '`';
    TrimOf("  ", body);
    DashIsNoHeader(RenderArtifact(a));
  }

  lemma PlainKeyValue(a: Artifact)
    requires ':' !in a.key
    ensures ArtifactValue(RenderArtifact(a)) == Trim(a.value)
  {
    var quoted := "`" + a.value + "`";
    assert RenderArtifact(a) == ("  - " + a.key) + [':'] + (" " + quoted);
    AfterColonOf("  - " + a.key, " " + quoted);
    TrimOf(" ", quoted);
    assert quoted[1..|quoted| - 1] == a.value;
  }

  /** A rendered artifact line is no header, is claimed by no key, and carries its value. */
  lemma ArtifactLine(w: Words, a: Artifact)
    requires WellWorded(w) && PlainArtifact(w, a)
    ensures Classify(w, RenderArtifact(a)) == LinkIs(a.value)
  {
    ArtifactBody(a);
    PlainKeyValue(a);
    TrimIsTrimmed(a.value);
    var tail := Quoted(a.value);
    ClaimedExactly(a.key, tail, w.status);
    ClaimedExactly(a.key, tail, w.owner);
    ClaimedExactly(a.key, tail, w.links);
    assert RenderArtifact(a)[..4] == "  - ";
  }

  function WithLinks(p: Parser, id: string, links: seq<string>): Parser
    requires id in p.items
  {
    p.(items := p.items[id := p.items[id].(artifactLinks := p.items[id].artifactLinks + links)])
  }

  lemma TakesLink(p: Parser, id: string, v: string)
    requires p.current == Some(id) && id in p.items && p.inArtifacts
    ensures Take(p, LinkIs(v)) == WithLinks(p, id, [v])
  {
  }

  lemma ReadsArtifact(w: Words, p: Parser, id: string, a: Artifact)
    requires WellWorded(w) && PlainArtifact(w, a) && p.current == Some(id) && id in p.items && p.inArtifacts
    ensures Read(w, p, RenderArtifact(a)) == WithLinks(p, id, [a.value])
  {
    ArtifactLine(w, a);
    TakesLink(p, id, a.value);
  }

  lemma WithLinksTwice(p: Parser, id: string, first: seq<string>, more: seq<string>)
    requires id in p.items
    ensures WithLinks(p, id, []) == p
    ensures WithLinks(WithLinks(p, id, first), id, more) == WithLinks(p, id, first + more)
  {
    var links := p.items[id].artifactLinks;
    assert links + [] == links;
    assert p.items[id := p.items[id]] == p.items;
    assert links + first + more == links + (first + more);
  }

  lemma ValuesOneMore(a: Artifact, rest: seq<Artifact>)
    ensures Values([a] + rest) == [a.value] + Values(rest)
  {
  }

  lemma {:induction false} ReadsArtifacts(w: Words, p: Parser, id: string, artifacts: seq<Artifact>)
    requires WellWorded(w) && (forall a | a in artifacts :: PlainArtifact(w, a)) && p.current == Some(id) && id in p.items && p.inArtifacts
    ensures ReadAll(w, p, RenderArtifacts(artifacts)) == WithLinks(p, id, Values(artifacts))
    decreases |artifacts|
  {
    if artifacts == [] {
      WithLinksTwice(p, id, [], []);
    } else {
      var a, rest := artifacts[0], artifacts[1..];
      ReadsArtifact(w, p, id, a);
      ReadsLine(w, p, RenderArtifact(a), RenderArtifacts(rest));
      ReadsArtifacts(w, WithLinks(p, id, [a.value]), id, rest);
      WithLinksTwice(p, id, [a.value], Values(rest));
      ValuesOneMore(a, rest);
      assert artifacts == [a] + rest;
    }
  }

  lemma {:induction false} ReadAllAppend(w: Words, p: Parser, a: seq<string>, b: seq<string>)
    ensures ReadAll(w, p, a + b) == ReadAll(w, ReadAll(w, p, a), b)
    decreases |a|
  {
    if a == [] {
      assert a + b == b;
    } else {
      assert (a + b)[1..] == a[1..] + b;
      ReadAllAppend(w, Read(w, p, a[0]), a[1..], b);
    }
  }

  function Updated(items: map<string, LaunchItem>, entries: seq<Entry>): map<string, LaunchItem>
    decreases |entries|
  {
    if entries == [] then items else Updated(items[entries[0].id := ItemOf(entries[0])], entries[1..])
  }

  lemma FreshItemTakesLinks(items: map<string, LaunchItem>, e: Entry)
    ensures WithLinks(Parser(items[e.id := LaunchItem(e.status, e.owner, [])], Some(e.id), true), e.id, Values(e.artifacts))
            == Parser(items[e.id := ItemOf(e)], Some(e.id), true)
  {
    assert [] + Values(e.artifacts) == Values(e.artifacts);
  }

  lemma ReadsEntry(w: Words, p: Parser, e: Entry)
    requires WellWorded(w) && PlainEntry(w, e)
    ensures ReadAll(w, p, RenderHead(w, e) + RenderArtifacts(e.artifacts)) == Parser(p.items[e.id := ItemOf(e)], Some(e.id), true)
  {
    ReadAllAppend(w, p, RenderHead(w, e), RenderArtifacts(e.artifacts));
    ReadsHead(w, p, e);
    KeyValueExactly(w.status, e.status);
    KeyValueExactly(w.owner, e.owner);
    ReadsArtifacts(w, Headed(w, p, e), e.id, e.artifacts);
    FreshItemTakesLinks(p.items, e);
  }

  lemma {:induction false} ReadsEntries(w: Words, p: Parser, entries: seq<Entry>)
    requires WellWorded(w) && forall e | e in entries :: PlainEntry(w, e)
    ensures ReadAll(w, p, Render(w, entries)).items == Updated(p.items, entries)
    decreases |entries|
  {
    if entries != [] {
      var e := entries[0];
      ReadsEntry(w, p, e);
      ReadAllAppend(w, p, RenderHead(w, e) + RenderArtifacts(e.artifacts), Render(w, entries[1..]));
      ReadsEntries(w, Parser(p.items[e.id := ItemOf(e)], Some(e.id), true), entries[1..]);
    }
  }

  lemma {:induction false} PreambleIsSkipped(w: Words, p: Parser, lines: seq<string>)
    requires p.current.None? && forall line | line in lines :: HeaderId(line) == None
    ensures ReadAll(w, p, lines) == p
    decreases |lines|
  {
    if lines != [] {
      PreambleIsSkipped(w, p, lines[1..]);
    }
  }

  lemma {:induction false} UpdatedLookup(items: map<string, LaunchItem>, entries: seq<Entry>)
    requires DistinctIds(entries)
    ensures forall e | e in entries :: e.id in Updated(items, entries) && Updated(items, entries)[e.id] == ItemOf(e)
    ensures forall id | id in Updated(items, entries) ::
              (exists e :: e in entries && e.id == id) || (id in items && Updated(items, entries)[id] == items[id])
    ensures forall id | id in items && (forall e | e in entries :: e.id != id) ::
              id in Updated(items, entries) && Updated(items, entries)[id] == items[id]
    decreases |entries|
  {
    if entries != [] {
      UpdatedLookup(items[entries[0].id := ItemOf(entries[0])], entries[1..]);
    }
  }

  lemma ParsesAsUpdated(w: Words, preamble: seq<string>, entries: seq<Entry>)
    requires forall line | line in preamble :: HeaderId(line) == None
    requires WellWorded(w) && forall e | e in entries :: PlainEntry(w, e)
    ensures ParseTracker(w, preamble + Render(w, entries)) == Updated(map[], entries)
  {
    var start := Parser(map[], None, false);
    ReadAllAppend(w, start, preamble, Render(w, entries));
    PreambleIsSkipped(w, start, preamble);
    ReadsEntries(w, start, entries);
  }

  /** What is parsed holds the entries' items and nothing else. */
  ghost predicate HoldsExactly(items: map<string, LaunchItem>, entries: seq<Entry>) {
    && (forall id :: id in items <==> exists e :: e in entries && e.id == id)
    && (forall e | e in entries :: items[e.id] == ItemOf(e))
  }

  /** No id twice. */
  predicate DistinctIds(entries: seq<Entry>) {
    forall i, j | 0 <= i < j < |entries| :: entries[i].id != entries[j].id
  }

  lemma UpdatedHoldsExactly(entries: seq<Entry>)
    requires DistinctIds(entries)
    ensures HoldsExactly(Updated(map[], entries), entries)
  {
    UpdatedLookup(map[], entries);
  }

  /**
   Parsing a rendered tracker returns exactly the entries rendered, whatever header-free text
   comes before the first one.
   */
  lemma ParseRender(w: Words, preamble: seq<string>, entries: seq<Entry>)
    requires forall line | line in preamble :: HeaderId(line) == None
    requires WellWorded(w) && (forall e | e in entries :: PlainEntry(w, e)) && DistinctIds(entries)
    ensures HoldsExactly(ParseTracker(w, preamble + Render(w, entries)), entries)
  {
    ParsesAsUpdated(w, preamble, entries);
    UpdatedHoldsExactly(entries);
  }

  // ---------------------------------------------------------------------------
  // Only plain entries come back
  // ---------------------------------------------------------------------------

  lemma LongerInside(left: string, v: string)
    ensures Trim(left + (": `" + v)) != v
  {
    var s := ": `" + v;
    TrimIsTrimmed(left + s);
    if Trimmed(v) {
      assert s[0] == ':' && s[|s| - 1] == if v == "" then '`' else v[|v| - 1];
      var rest := TrimKeepsTail(left, s);
    }
  }

  lemma ColonKeyLine(a: Artifact) returns (after: string)
    requires ':' in a.key
    ensures AfterColon(RenderArtifact(a)) == after + (":" + Quoted(a.value))
  {
    var pre := Before(a.key, ':');
    after := a.key[|pre| + 1..];
    var tail := after + (":" + Quoted(a.value));
    assert a.key == pre + [':'] + after;
    assert RenderArtifact(a) == ("  - " + pre) + [':'] + tail;
    AfterColonOf("  - " + pre, tail);
  }

  lemma UnquotedIsLonger(left: string, v: string)
    ensures Unquoted(left + (":" + Quoted(v))) != v
  {
    var value := left + (":" + Quoted(v));
    assert value[|value| - 1] == '`';
    if left != "" {
      assert value[0] == left[0];
      assert value[1..|value| - 1] == left[1..] + (": `" + v);
      LongerInside(left[1..], v);
    } else {
      assert value[0] == ':';
    }
  }

  /** A key with a colon swallows part of the line into the value. */
  lemma ColonKeyLosesValue(a: Artifact)
    requires ':' in a.key
    ensures ArtifactValue(RenderArtifact(a)) != a.value
  {
    var after := ColonKeyLine(a);
    var left := TrimKeepsTail(after, ":" + Quoted(a.value));
    UnquotedIsLonger(left, a.value);
  }

  /** A rendered artifact is read as a link with its value exactly when it is plain. */
  lemma ArtifactLineExactly(w: Words, a: Artifact)
    requires WellWorded(w)
    ensures Classify(w, RenderArtifact(a)) == LinkIs(a.value) <==> PlainArtifact(w, a)
  {
    if PlainArtifact(w, a) {
      ArtifactLine(w, a);
    } else if ':' in a.key {
      ColonKeyLosesValue(a);
    } else if Trimmed(a.value) {
      ArtifactBody(a);
      ClaimedExactly(a.key, Quoted(a.value), w.status);
      ClaimedExactly(a.key, Quoted(a.value), w.owner);
      ClaimedExactly(a.key, Quoted(a.value), w.links);
    } else {
      PlainKeyValue(a);
      TrimIsTrimmed(a.value);
    }
  }

  /** The parser is at this item. */
  predicate At(p: Parser, id: string) {
    p.current == Some(id) && id in p.items
  }

  /** Nothing but this item may have changed. */
  predicate OnlyItem(before: map<string, LaunchItem>, after: map<string, LaunchItem>, id: string) {
    && after.Keys == before.Keys + {id}
    && forall other | other in before && other != id :: after[other] == before[other]
  }

  lemma ReadsSomeLink(w: Words, p: Parser, id: string, a: Artifact)
    requires At(p, id)
    ensures var q := Read(w, p, RenderArtifact(a));
            && At(q, id) && OnlyItem(p.items, q.items, id)
            && (|| q.items[id].artifactLinks == p.items[id].artifactLinks
                || (Classify(w, RenderArtifact(a)).LinkIs?
                    && q.items[id].artifactLinks == p.items[id].artifactLinks + [Classify(w, RenderArtifact(a)).v]))
  {
    ArtifactBody(a);
    TakesAnyLine(p, id, Classify(w, RenderArtifact(a)));
  }

  /** The link that comes back is this artifact's only if the artifact is plain. */
  lemma ReadsOwnLink(w: Words, p: Parser, id: string, a: Artifact)
    requires WellWorded(w) && At(p, id)
    ensures var q := Read(w, p, RenderArtifact(a));
            At(q, id) && (q.items[id].artifactLinks == p.items[id].artifactLinks + [a.value] ==> PlainArtifact(w, a))
  {
    ReadsSomeLink(w, p, id, a);
    var before, now := p.items[id].artifactLinks, Read(w, p, RenderArtifact(a)).items[id].artifactLinks;
    if now == before + [a.value] {
      assert now[|before|] == a.value;
      assert now == before + [Classify(w, RenderArtifact(a)).v];
      ArtifactLineExactly(w, a);
    }
  }

  lemma TakesAnyLine(p: Parser, id: string, line: Line)
    requires At(p, id) && !line.Header?
    ensures var q := Take(p, line);
            && At(q, id) && OnlyItem(p.items, q.items, id)
            && (|| q.items[id].artifactLinks == p.items[id].artifactLinks
                || (line.LinkIs? && q.items[id].artifactLinks == p.items[id].artifactLinks + [line.v]))
  {
  }

  /** All of the links come back only if all artifacts are plain. */
  lemma {:induction false} LinksReadBack(w: Words, p: Parser, id: string, artifacts: seq<Artifact>)
    requires WellWorded(w) && At(p, id)
    ensures var r := ReadAll(w, p, RenderArtifacts(artifacts));
            && At(r, id) && OnlyItem(p.items, r.items, id)
            && LinksBetween(p.items[id].artifactLinks, r.items[id].artifactLinks, |artifacts|)
            && (r.items[id].artifactLinks == p.items[id].artifactLinks + Values(artifacts) ==> forall a | a in artifacts :: PlainArtifact(w, a))
    decreases |artifacts|
  {
    if artifacts != [] {
      var a, rest := artifacts[0], artifacts[1..];
      var q := Read(w, p, RenderArtifact(a));
      ReadsSomeLink(w, p, id, a);
      ReadsLine(w, p, RenderArtifact(a), RenderArtifacts(rest));
      LinksReadBack(w, q, id, rest);
      var r := ReadAll(w, q, RenderArtifacts(rest));
      assert artifacts == [a] + rest;
      ValuesOneMore(a, rest);
      LinksAddUp(p.items[id].artifactLinks, q.items[id].artifactLinks, r.items[id].artifactLinks, a.value, Values(rest));
      if r.items[id].artifactLinks == p.items[id].artifactLinks + Values(artifacts) {
        ReadsOwnLink(w, p, id, a);
      }
    } else {
      assert Values(artifacts) == [];
    }
  }

  /** At most so many links were added behind the old ones. */
  predicate LinksBetween(before: seq<string>, after: seq<string>, n: nat) {
    before <= after && |after| <= |before| + n
  }

  lemma LinksAddUp(before: seq<string>, mid: seq<string>, after: seq<string>, v: string, vs: seq<string>)
    requires LinksBetween(before, mid, 1) && LinksBetween(mid, after, |vs|)
    ensures LinksBetween(before, after, |vs| + 1)
    ensures after == before + ([v] + vs) ==> mid == before + [v] && after == mid + vs
  {
    if after == before + ([v] + vs) {
      assert mid == after[..|mid|];
    }
  }

  lemma OnlyItemTwice(a: map<string, LaunchItem>, b: map<string, LaunchItem>, c: map<string, LaunchItem>, id: string)
    requires OnlyItem(a, b, id) && OnlyItem(b, c, id)
    ensures OnlyItem(a, c, id)
  {
  }

  /** The parser has just read this entry's head. */
  predicate HeadRead(w: Words, h: Parser, e: Entry)
    requires e.id in h.items
  {
    h.inArtifacts && h.items[e.id] == LaunchItem(KeyValue(w.status, e.status), KeyValue(w.owner, e.owner), [])
  }

  lemma SectionIsPlain(w: Words, h: Parser, e: Entry)
    requires WellWorded(w) && At(h, e.id)
    ensures var r := ReadAll(w, h, RenderArtifacts(e.artifacts));
            && At(r, e.id) && OnlyItem(h.items, r.items, e.id)
            && (IsItemId(e.id) && HeadRead(w, h, e) && r.items[e.id] == ItemOf(e) ==> PlainEntry(w, e))
  {
    LinksReadBack(w, h, e.id, e.artifacts);
    var r := ReadAll(w, h, RenderArtifacts(e.artifacts));
    if HeadRead(w, h, e) && r.items[e.id] == ItemOf(e) {
      assert [] + Values(e.artifacts) == Values(e.artifacts);
      ReadsArtifacts(w, h, e.id, e.artifacts);
      KeyValueExactly(w.status, e.status);
      KeyValueExactly(w.owner, e.owner);
    }
  }

  /** An entry's section changes no other item, and gives its own back only if the entry is plain. */
  lemma SectionReadsBack(w: Words, p: Parser, e: Entry)
    requires WellWorded(w) && IsItemId(e.id)
    ensures var r := ReadAll(w, p, RenderHead(w, e) + RenderArtifacts(e.artifacts));
            && OnlyItem(p.items, r.items, e.id)
            && (r.items[e.id] == ItemOf(e) ==> PlainEntry(w, e))
  {
    ReadAllAppend(w, p, RenderHead(w, e), RenderArtifacts(e.artifacts));
    ReadsHead(w, p, e);
    var h := Headed(w, p, e);
    SectionIsPlain(w, h, e);
    OnlyItemTwice(p.items, h.items, ReadAll(w, h, RenderArtifacts(e.artifacts)).items, e.id);
  }

  /** Each entry's item after a rendered list is its own, and equal to what was rendered only if it is plain. */
  lemma {:induction false} EntriesReadBack(w: Words, p: Parser, entries: seq<Entry>)
    requires WellWorded(w) && DistinctIds(entries) && forall e | e in entries :: IsItemId(e.id)
    ensures var r := ReadAll(w, p, Render(w, entries)).items;
            && (forall e | e in entries :: e.id in r && (r[e.id] == ItemOf(e) ==> PlainEntry(w, e)))
            && (forall id | id in p.items && (forall e | e in entries :: e.id != id) :: id in r && r[id] == p.items[id])
    decreases |entries|
  {
    if entries != [] {
      var e, rest := entries[0], entries[1..];
      var section := RenderHead(w, e) + RenderArtifacts(e.artifacts);
      var q := ReadAll(w, p, section);
      SectionReadsBack(w, p, e);
      ReadAllAppend(w, p, section, Render(w, rest));
      EntriesReadBack(w, q, rest);
      assert forall other | other in rest :: other.id != e.id;
    }
  }

  /** The round trip holds exactly for plain entries. */
  lemma ParseRenderExactly(w: Words, preamble: seq<string>, entries: seq<Entry>)
    requires forall line | line in preamble :: HeaderId(line) == None
    requires WellWorded(w) && DistinctIds(entries) && forall e | e in entries :: IsItemId(e.id)
    ensures HoldsExactly(ParseTracker(w, preamble + Render(w, entries)), entries) <==> forall e | e in entries :: PlainEntry(w, e)
  {
    var start := Parser(map[], None, false);
    ReadAllAppend(w, start, preamble, Render(w, entries));
    PreambleIsSkipped(w, start, preamble);
    EntriesReadBack(w, start, entries);
    if forall e | e in entries :: PlainEntry(w, e) {
      ParseRender(w, preamble, entries);
    }
  }

  /** A concrete entry that is lost: its artifact key carries a colon. */
  lemma ColonKeyIsLost(value: string)
    ensures var entry := Entry("L1", "DONE", "ann", [Artifact("a:b", value)]);
            !HoldsExactly(ParseTracker(TRACKER_WORDS, [] + Render(TRACKER_WORDS, [entry])), [entry])
  {
    var artifact := Artifact("a:b", value);
    var entry := Entry("L1", "DONE", "ann", [artifact]);
    assert artifact.key[1] == ':' && artifact in entry.artifacts;
    assert !PlainArtifact(TRACKER_WORDS, artifact);
    assert IsDigit(entry.id[1]) && entry in [entry];
    TrackerWordsAreWellWorded();
    ParseRenderExactly(TRACKER_WORDS, [], [entry]);
  }

  // ---------------------------------------------------------------------------
  // Any line
  // ---------------------------------------------------------------------------

  predicate Blanks(pad: string) {
    pad != "" && forall i | 0 <= i < |pad| :: IsSpace(pad[i])
  }

  /** A header is three hashes, blanks and an id, whatever blanks surround it. */
  lemma HeaderExactly(line: string, id: string)
    ensures HeaderId(line) == Some(id) <==> IsItemId(id) && exists pad :: Blanks(pad) && Trim(line) == "###" + pad + id
  {
    var s := Trim(line);
    if HeaderId(line) == Some(id) {
      var pad := TrimLeftCuts(s[3..]);
      assert s == "###" + s[3..];
      assert Blanks(pad) && s == "###" + pad + id;
    }
    if pad :| Blanks(pad) && s == "###" + pad + id && IsItemId(id) {
      assert s[3..] == pad + id;
      TrimLeftOf(pad, id);
    }
  }

  /** The first pair of backticks with something between them gives the value; one backtick, or none, gives nothing. */
  lemma BacktickExactly(pre: string, v: string, tail: string)
    requires '`' !in pre && '`' !in v
    ensures BacktickValue(pre) == "" && BacktickValue(pre + "`" + v) == ""
    ensures v != "" ==> BacktickValue(pre + "`" + v + "`" + tail) == Trim(v)
    ensures BacktickValue(pre + "`" + ("`" + tail)) == BacktickValue("`" + tail)
  {
    BeforeOf(pre, '`', v);
    assert (pre + ['`'] + v)[|pre| + 1..] == v;
    assert pre + "`" + v + "`" + tail == pre + ['`'] + (v + ['`'] + tail);
    BeforeOf(pre, '`', v + ['`'] + tail);
    assert (pre + ['`'] + (v + ['`'] + tail))[|pre| + 1..] == v + ['`'] + tail;
    BeforeOf(v, '`', tail);
    assert (v + ['`'] + tail)[|v|] == '`';
    EmptyPairIsSkipped(pre, tail);
  }

  lemma EmptyPairIsSkipped(pre: string, tail: string)
    requires '`' !in pre
    ensures BacktickValue(pre + "`" + ("`" + tail)) == BacktickValue("`" + tail)
  {
    var rest := "`" + tail;
    assert pre + "`" + rest == pre + ['`'] + rest;
    BeforeOf(pre, '`', rest);
    assert (pre + ['`'] + rest)[|pre| + 1..] == rest;
    assert (pre + ['`'] + rest)[|pre|] == '`' && rest[0] == '`';
    BeforeOf("", '`', tail);
    assert "" + ['`'] + tail == rest;
  }

  /** An artifact line's value is what follows its first colon, trimmed, without backticks that enclose it. */
  lemma ArtifactValueExactly(pre: string, tail: string, v: string)
    requires ':' !in pre
    ensures ArtifactValue(pre) == ""
    ensures Trim(tail) == "`" + v + "`" ==> ArtifactValue(pre + [':'] + tail) == Trim(v)
    ensures Trim(tail) == "`" ==> ArtifactValue(pre + [':'] + tail) == ""
    ensures Trim(tail) == "" || Trim(tail)[0] != '`' || Trim(tail)[|Trim(tail)| - 1] != '`' ==> ArtifactValue(pre + [':'] + tail) == Trim(tail)
  {
    AfterColonOf(pre, tail);
    var quoted := "`" + v + "`";
    assert quoted[0] == '`' && quoted[|quoted| - 1] == '`' && quoted[1..|quoted| - 1] == v;
    TrimIsTrimmed("");
  }

  /** Blank lines change nothing, anywhere in any text. */
  lemma {:induction false} BlankLinesDoNotMatter(w: Words, p: Parser, lines: seq<string>)
    ensures ReadAll(w, p, lines) == ReadAll(w, p, NonBlank(lines))
    decreases |lines|
  {
    if lines != [] {
      BlankLinesDoNotMatter(w, Read(w, p, lines[0]), lines[1..]);
      if Trim(lines[0]) == "" {
        BlankIsBlank(w, lines[0]);
        assert Read(w, p, lines[0]) == p && NonBlank(lines) == NonBlank(lines[1..]);
      } else {
        assert NonBlank(lines) == [lines[0]] + NonBlank(lines[1..]);
        ReadsLine(w, p, lines[0], NonBlank(lines[1..]));
      }
    }
  }

  function NonBlank(lines: seq<string>): seq<string> {
    if lines == [] then [] else (if Trim(lines[0]) == "" then [] else [lines[0]]) + NonBlank(lines[1..])
  }

  lemma BlankIsBlank(w: Words, line: string)
    requires Trim(line) == ""
    ensures Classify(w, line) == Blank
  {
    if "  - " <= line {
      var rest := line[4..];
      assert line == "  " + ("-" + line[3..]);
      TrimLeftKeeps("  ", "-" + line[3..]);
      TrimRightKeepsHead("-" + line[3..]);
    }
  }

  lemma {:induction false} TrimLeftKeeps(pad: string, s: string)
    requires s != "" && !IsSpace(s[0]) && forall i | 0 <= i < |pad| :: IsSpace(pad[i])
    ensures TrimLeft(pad + s) == s
  {
    if pad == "" {
      assert pad + s == s;
    } else {
      assert (pad + s)[1..] == pad[1..] + s;
      TrimLeftKeeps(pad[1..], s);
    }
  }

  lemma {:induction false} TrimRightKeepsHead(s: string)
    requires s != "" && !IsSpace(s[0])
    ensures TrimRight(s) != ""
  {
    if IsSpace(s[|s| - 1]) {
      TrimRightKeepsHead(s[..|s| - 1]);
    }
  }

  /** What a line does to the item under the last header: each kind of line, and the links it opens or closes. */
  lemma LineDoes(w: Words, p: Parser, id: string, line: string)
    requires At(p, id) && HeaderId(line) == None
    ensures var q, item, stripped := Read(w, p, line), p.items[id], Trim(line);
            && At(q, id) && OnlyItem(p.items, q.items, id)
            && (KeyLead(w.status) <= stripped ==>
                  q.items[id] == LaunchItem(BacktickValue(stripped), item.owner, item.artifactLinks) && !q.inArtifacts)
            && (!(KeyLead(w.status) <= stripped) && KeyLead(w.owner) <= stripped ==>
                  q.items[id] == LaunchItem(item.status, BacktickValue(stripped), item.artifactLinks) && !q.inArtifacts)
            && (!(KeyLead(w.status) <= stripped) && !(KeyLead(w.owner) <= stripped) ==>
                  && q.items[id].status == item.status && q.items[id].owner == item.owner
                  && (KeyLead(w.links) <= stripped ==> q.items[id] == item && q.inArtifacts)
                  && (!(KeyLead(w.links) <= stripped) && "  - " <= line ==>
                        q.inArtifacts == p.inArtifacts
                        && q.items[id].artifactLinks == item.artifactLinks + if p.inArtifacts then [ArtifactValue(line)] else [])
                  && (!(KeyLead(w.links) <= stripped) && !("  - " <= line) ==>
                        q.items[id] == item && q.inArtifacts == (p.inArtifacts && stripped == "")))
  {
  }

  /** Before any header nothing is read, and a header starts a fresh item with its links closed. */
  lemma HeaderDoes(w: Words, p: Parser, line: string)
    ensures HeaderId(line) == None && p.current == None ==> Read(w, p, line) == p
    ensures HeaderId(line).Some? ==>
              var id := HeaderId(line).value;
              Read(w, p, line) == Parser(p.items[id := LaunchItem("", "", [])], Some(id), false)
  {
  }

  method ParseLaunchTrackerItems(w: Words, lines: seq<string>) returns (items: map<string, LaunchItem>)
    ensures items == ParseTracker(w, lines)
  {
    items := map[];
    var current: Option<string> := None;
    var inArtifacts := false;
    for i := 0 to |lines|
      invariant ReadAll(w, Parser(items, current, inArtifacts), lines[i..]).items == ParseTracker(w, lines)
      invariant current.Some? ==> current.value in items
    {
      assert lines[i..] == [lines[i]] + lines[i + 1..];
      ReadsLine(w, Parser(items, current, inArtifacts), lines[i], lines[i + 1..]);
      items, current, inArtifacts := TakeLine(w, items, current, inArtifacts, lines[i]);
    }
  }

  /** The body of the line loop. */
  method TakeLine(w: Words, items0: map<string, LaunchItem>, current0: Option<string>, inArtifacts0: bool, line: string)
    returns (items: map<string, LaunchItem>, current: Option<string>, inArtifacts: bool)
    requires current0.Some? ==> current0.value in items0
    ensures Parser(items, current, inArtifacts) == Read(w, Parser(items0, current0, inArtifacts0), line)
    ensures current.Some? ==> current.value in items
  {
    items, current, inArtifacts := items0, current0, inArtifacts0;
    var header := HeaderId(line);
    if header.Some? {
      return items[header.value := LaunchItem("", "", [])], header, false;
    }
    if current.None? {
      return;
    }
    var id := current.value;
    var stripped := Trim(line);
    if KeyLead(w.status) <= stripped {
      return items[id := items[id].(status := BacktickValue(stripped))], current, false;
    }
    if KeyLead(w.owner) <= stripped {
      return items[id := items[id].(owner := BacktickValue(stripped))], current, false;
    }
    if KeyLead(w.links) <= stripped {
      return items, current, true;
    }
    if inArtifacts {
      if "  - " <= line {
        return items[id := items[id].(artifactLinks := items[id].artifactLinks + [ArtifactValue(line)])], current, true;
      }
      if stripped != "" {
        inArtifacts := false;
      }
    }
  }

  // ---------------------------------------------------------------------------
  // The release check
  // ---------------------------------------------------------------------------

  datatype Mode = Pilot | Ga

  const PILOT_REQUIRED: seq<string> := ["L01", "L02", "L03", "L04", "L11"]
  const GA_REQUIRED: seq<string> := ["L01", "L02", "L03", "L04", "L05", "L06", "L07", "L09", "L10", "L11", "L12"]

  function Required(mode: Mode): seq<string> {
    match mode
    case Pilot => PILOT_REQUIRED
    case Ga => GA_REQUIRED
  }

  datatype Problem =
    | MissingTrackerItem | StatusNotDone(status: string) | OwnerNotAssigned | LinksMissing
    | LinkTbd | ArtifactNotFound(link: string)

  /** Which links name a local file that is not there; web links never do. */
  type Files = string -> bool

  function LinkProblem(link: string, absent: Files): seq<Problem> {
    if Unset(link) then [LinkTbd]
    else if absent(link) then [ArtifactNotFound(link)]
    else []
  }

  function LinkProblems(links: seq<string>, absent: Files): seq<Problem> {
    if links == [] then []
    else LinkProblems(links[..|links| - 1], absent) + LinkProblem(links[|links| - 1], absent)
  }

  predicate Unset(v: string) {
    v == "" || Upper(v) == "TBD"
  }

  function StatusProblem(status: string): seq<Problem> {
    if Upper(status) != "DONE" then [StatusNotDone(status)] else []
  }

  function OwnerProblem(owner: string): seq<Problem> {
    if Unset(owner) then [OwnerNotAssigned] else []
  }

  function Problems(items: map<string, LaunchItem>, id: string, absent: Files): seq<Problem> {
    if id !in items then [MissingTrackerItem]
    else
      var item := items[id];
      StatusProblem(item.status) + OwnerProblem(item.owner) + (if item.artifactLinks == [] then [LinksMissing] else LinkProblems(item.artifactLinks, absent))
  }

  /** What a fully evidenced item looks like. */
  predicate Evidenced(items: map<string, LaunchItem>, id: string, absent: Files) {
    && id in items
    && Upper(items[id].status) == "DONE"
    && !Unset(items[id].owner)
    && items[id].artifactLinks != []
    && forall link | link in items[id].artifactLinks :: !Unset(link) && !absent(link)
  }

  lemma {:induction false} LinksCleanExactly(links: seq<string>, absent: Files)
    ensures LinkProblems(links, absent) == [] <==>
              forall link | link in links :: !Unset(link) && !absent(link)
  {
    if links != [] {
      var front, last := links[..|links| - 1], links[|links| - 1];
      LinksCleanExactly(front, absent);
      assert links == front + [last];
      assert forall link :: link in links <==> link in front || link == last;
    }
  }

  lemma EvidencedExactly(items: map<string, LaunchItem>, id: string, absent: Files)
    ensures Problems(items, id, absent) == [] <==> Evidenced(items, id, absent)
  {
    if id in items {
      LinksCleanExactly(items[id].artifactLinks, absent);
    }
  }

  /** Which problems an item has: each is reported exactly when it is there. */
  lemma {:induction false} ProblemsExactly(items: map<string, LaunchItem>, id: string, absent: Files, p: Problem)
    ensures p in Problems(items, id, absent)
       <==> if id !in items then p == MissingTrackerItem
            else match p
              case MissingTrackerItem => false
              case StatusNotDone(status) => status == items[id].status && Upper(status) != "DONE"
              case OwnerNotAssigned => items[id].owner == "" || Upper(items[id].owner) == "TBD"
              case LinksMissing => items[id].artifactLinks == []
              case LinkTbd => exists link | link in items[id].artifactLinks :: link == "" || Upper(link) == "TBD"
              case ArtifactNotFound(link) => link in items[id].artifactLinks && !(link == "" || Upper(link) == "TBD") && absent(link)
  {
    if id in items {
      LinkProblemsExactly(items[id].artifactLinks, absent, p);
    }
  }

  lemma {:induction false} LinkProblemsExactly(links: seq<string>, absent: Files, p: Problem)
    ensures p in LinkProblems(links, absent) <==> exists link | link in links :: p in LinkProblem(link, absent)
  {
    if links != [] {
      var front, last := links[..|links| - 1], links[|links| - 1];
      LinkProblemsExactly(front, absent, p);
      assert links == front + [last];
      assert forall link :: link in links <==> link in front || link == last;
    }
  }

  datatype ItemResult = ItemResult(id: string, problems: seq<Problem>)

  predicate Passes(items: map<string, LaunchItem>, mode: Mode, manifest: bool, absent: Files) {
    manifest && forall id | id in Required(mode) :: Evidenced(items, id, absent)
  }

  /** One result per required item, in order; the release passes exactly when each is evidenced and the manifest exists. */
  method ValidateRelease(lines: seq<string>, mode: Mode, manifest: bool, absent: Files)
    returns (results: seq<ItemResult>, passed: bool)
    ensures |results| == |Required(mode)|
    ensures forall i | 0 <= i < |results| ::
              results[i] == ItemResult(Required(mode)[i], Problems(ParseTracker(TRACKER_WORDS, lines), Required(mode)[i], absent))
    ensures passed <==> Passes(ParseTracker(TRACKER_WORDS, lines), mode, manifest, absent)
  {
    var items := ParseLaunchTrackerItems(TRACKER_WORDS, lines);
    var errors;
    results, errors := CheckItems(items, Required(mode), absent);
    CleanResultsExactly(items, Required(mode), absent, results);
    if !manifest {
      errors := errors + 1;
    }
    passed := errors == 0;
  }

  lemma CleanResultsExactly(items: map<string, LaunchItem>, required: seq<string>, absent: Files, results: seq<ItemResult>)
    requires |results| == |required|
    requires forall i | 0 <= i < |results| :: results[i] == ItemResult(required[i], Problems(items, required[i], absent))
    ensures (forall i | 0 <= i < |results| :: results[i].problems == []) <==> forall id | id in required :: Evidenced(items, id, absent)
  {
    forall i | 0 <= i < |required| ensures results[i].problems == [] <==> Evidenced(items, required[i], absent) {
      EvidencedExactly(items, required[i], absent);
    }
  }

  method CheckItems(items: map<string, LaunchItem>, required: seq<string>, absent: Files)
    returns (results: seq<ItemResult>, errors: nat)
    ensures |results| == |required|
    ensures forall i | 0 <= i < |results| :: results[i] == ItemResult(required[i], Problems(items, required[i], absent))
    ensures errors == 0 <==> forall i | 0 <= i < |results| :: results[i].problems == []
  {
    errors := 0;
    results := [];
    for i := 0 to |required|
      invariant |results| == i
      invariant forall k | 0 <= k < i :: results[k] == ItemResult(required[k], Problems(items, required[k], absent))
      invariant errors == 0 <==> forall k | 0 <= k < i :: results[k].problems == []
    {
      var problems := CheckItem(items, required[i], absent);
      if problems != [] {
        errors := errors + 1;
      }
      results := results + [ItemResult(required[i], problems)];
    }
  }

  method CheckItem(items: map<string, LaunchItem>, id: string, absent: Files) returns (problems: seq<Problem>)
    ensures problems == Problems(items, id, absent)
  {
    if id !in items {
      return [MissingTrackerItem];
    }
    var item := items[id];
    problems := [];
    if Upper(item.status) != "DONE" {
      problems := problems + [StatusNotDone(item.status)];
    }
    assert problems == StatusProblem(item.status);
    if Unset(item.owner) {
      problems := problems + [OwnerNotAssigned];
    }
    assert problems == StatusProblem(item.status) + OwnerProblem(item.owner);
    if item.artifactLinks == [] {
      problems := problems + [LinksMissing];
    } else {
      var more := CheckLinks(item.artifactLinks, absent);
      problems := problems + more;
    }
  }

  method CheckLinks(links: seq<string>, absent: Files) returns (problems: seq<Problem>)
    ensures problems == LinkProblems(links, absent)
  {
    problems := [];
    for i := 0 to |links|
      invariant problems == LinkProblems(links[..i], absent)
    {
      assert links[..i + 1][..i] == links[..i];
      var link := links[i];
      if Unset(link) {
        problems := problems + [LinkTbd];
        continue;
      }
      if absent(link) {
        problems := problems + [ArtifactNotFound(link)];
      }
    }
    assert links[..|links|] == links;
  }

  /** A release passes exactly when the manifest exists and no required item has a problem; these are the items each mode requires. */
  lemma PassesExactly(items: map<string, LaunchItem>, mode: Mode, manifest: bool, absent: Files)
    ensures Passes(items, mode, manifest, absent) <==> manifest && forall id | id in Required(mode) :: Problems(items, id, absent) == []
    ensures Required(Pilot) == ["L01", "L02", "L03", "L04", "L11"]
    ensures Required(Ga) == ["L01", "L02", "L03", "L04", "L05", "L06", "L07", "L09", "L10", "L11", "L12"]
  {
    forall id | id in Required(mode) ensures Problems(items, id, absent) == [] <==> Evidenced(items, id, absent) {
      EvidencedExactly(items, id, absent);
    }
  }

  /** A release that passes in GA mode also passes in pilot mode. */
  lemma GaPassIsPilotPass(items: map<string, LaunchItem>, manifest: bool, absent: Files)
    requires Passes(items, Ga, manifest, absent)
    ensures Passes(items, Pilot, manifest, absent)
  {
    forall id | id in PILOT_REQUIRED ensures Evidenced(items, id, absent) {
      assert id in GA_REQUIRED;
    }
  }
}
