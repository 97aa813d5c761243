/** Reading back what the writer produces: a heading line written from
    well-formed fields parses to those fields, and a document written from
    well-formed headings parses to those headings. */
module OrgRoundTrip {
  import opened OrgStrings
  import opened OrgHeadline
  import opened OrgDrawers
  import opened OrgParsers
  import opened OrgWriters

  /** No line feed and no carriage return. */
  predicate OneLine(s: string)
  {
    '\n' !in s && '\r' !in s
  }

  /** The headline fields of a heading record. */
  function HeadlineOf(h: HeadingFields): Headline
    requires HasHeadingLine(h) && h.headline.Some?
  {
    Headline(h.level.value, h.todo, h.priority, h.headline.value, h.tags)
  }

  /** Fields whose heading line reads back: a positive level, a non-empty
      headline, and headline fields that survive `Assemble` with a tab
      before the tag group. */
  predicate Writable(h: HeadingFields)
  {
    HasHeadingLine(h) && Truthy(h.headline) && Recoverable(HeadlineOf(h), "\t")
  }

  /** The writer lays a writable heading line out as `Assemble` does, with a
      tab before the tag group. */
  lemma WrittenIsAssembled(h: HeadingFields)
    requires Writable(h)
    ensures HeadingLine(h) == Assemble(HeadlineOf(h), "\t")
  {
    var hl := h.headline.value;
    var tags := TagPart("\t", h.tags);
    assert TagsPart(h) == tags;
    assert HeadlinePart(h) + TagsPart(h) == " " + (hl + tags);
    var p := CookieText(h.priority) + (hl + tags);
    assert PriorityPart(h) + (HeadlinePart(h) + TagsPart(h)) == " " + p by {
      if h.priority.Some? {
        var c := h.priority.value;
        assert " [#" + c + "]" + (" " + (hl + tags)) == " " + ("[#" + c + "] " + (hl + tags));
      }
    }
    assert AfterStars(h) == " " + (KeywordText(h.todo) + p) by {
      if h.todo.Some? {
        var t := h.todo.value;
        assert " " + t + (" " + p) == " " + (t + " " + p);
      }
    }
    HeadingLineLayout(h);
  }

  /** A writable heading's line parses back to its headline fields. */
  lemma ReadWrittenLine(h: HeadingFields)
    requires Writable(h)
    ensures ParseHeadline(HeadingLine(h)) == Some(HeadlineOf(h))
    ensures IsHeadingLine(HeadingLine(h))
  {
    WrittenIsAssembled(h);
    ParseAssembled(HeadlineOf(h), "\t");
  }

  /** A writable heading whose drawers are those of its body is exactly what
      `parseHeading` reads from its heading line and its body lines; with no
      body that is the one-line group. */
  lemma ReadWrittenHeading(h: HeadingFields)
    requires Writable(h) && h.drawers == Drawers(h.body)
    ensures ParseHeading([HeadingLine(h)] + h.body) == h
  {
    ReadWrittenLine(h);
    assert ([HeadingLine(h)] + h.body)[1..] == h.body;
  }

  /** The lines a heading is written as: the heading line and the body, or
      the body alone for a heading without a positive level. */
  function WrittenGroup(h: HeadingFields): seq<string>
  {
    if HasHeadingLine(h) then [HeadingLine(h)] + h.body else h.body
  }

  /** Body lines that read back as one body line each, never as a heading. */
  predicate PlainLines(body: seq<string>)
  {
    forall j :: 0 <= j < |body| ==> OneLine(body[j]) && !IsHeadingLine(body[j])
  }

  /** A heading that reads back from the written document: writable, with a
      non-empty body of plain lines, single-line headline and tags, and the
      drawers of its body. */
  predicate Readable(h: HeadingFields)
  {
    Writable(h) && h.body != [] && PlainLines(h.body) && h.drawers == Drawers(h.body) &&
    OneLine(h.headline.value) && forall k :: 0 <= k < |h.tags| ==> OneLine(h.tags[k])
  }

  /** The level-0 record `parseHeading` gives for a first group that is no
      heading: a non-empty body of plain lines and nothing else. */
  predicate Preamble(h: HeadingFields)
  {
    h == HeadingFields(Some(0), None, None, None, [], map[], h.body) && h.body != [] && PlainLines(h.body)
  }

  /** A character absent from the parts and from the separator is absent from their join. */
  lemma {:induction false} JoinFree(parts: seq<string>, d: char, c: char)
    requires c != d
    requires forall k :: 0 <= k < |parts| ==> c !in parts[k]
    ensures c !in Join(parts, d)
    decreases |parts|
  {
    if |parts| > 1 {
      JoinFree(parts[1..], d, c);
    }
  }

  /** Joining the joined groups is joining the concatenated groups. */
  lemma {:induction false} JoinGroups(gs: seq<seq<string>>, joined: seq<string>, d: char)
    requires |joined| == |gs|
    requires forall k :: 0 <= k < |gs| ==> gs[k] != [] && joined[k] == Join(gs[k], d)
    ensures Join(joined, d) == Join(Concat(gs), d)
    decreases |gs|
  {
    if |gs| == 1 {
      assert Concat(gs) == gs[0] + Concat([]);
      assert gs[0] + [] == gs[0];
    } else if |gs| > 1 {
      JoinGroups(gs[1..], joined[1..], d);
      assert Concat(gs[1..]) == gs[1] + Concat(gs[2..]);
      JoinConcat(gs[0], Concat(gs[1..]), d);
    }
  }

  /** Every line of a concatenation comes from one of the groups. */
  lemma {:induction false} ConcatMember(gs: seq<seq<string>>, x: string)
    requires x in Concat(gs)
    ensures exists k, j :: 0 <= k < |gs| && 0 <= j < |gs[k]| && gs[k][j] == x
    decreases |gs|
  {
    if x !in gs[0] {
      ConcatMember(gs[1..], x);
      var k, j :| 0 <= k < |gs[1..]| && 0 <= j < |gs[1..][k]| && gs[1..][k][j] == x;
      assert gs[k + 1][j] == x;
    } else {
      var j :| 0 <= j < |gs[0]| && gs[0][j] == x;
    }
  }

  /** A written heading line spans one line when its headline and tags do. */
  lemma HeadingLineOneLine(h: HeadingFields)
    requires HasHeadingLine(h)
    requires h.todo.Some? ==> h.todo.value in Keywords
    requires h.priority.Some? ==> h.priority.value in Priorities
    requires h.headline.Some? ==> OneLine(h.headline.value)
    requires forall k :: 0 <= k < |h.tags| ==> OneLine(h.tags[k])
    ensures OneLine(HeadingLine(h))
  {
    var stars := Stars(h.level.value);
    assert OneLine(stars) by {
      assert forall i :: 0 <= i < |stars| ==> stars[i] == '*';
    }
    assert OneLine(TodoPart(h));
    assert OneLine(PriorityPart(h));
    assert OneLine(HeadlinePart(h));
    JoinFree(h.tags, ':', '\n');
    JoinFree(h.tags, ':', '\r');
    assert OneLine(TagsPart(h));
    assert HeadingLine(h) == stars + TodoPart(h) + PriorityPart(h) + HeadlinePart(h) + TagsPart(h);
  }

  /** A single heading line followed by plain body lines: every line is a
      single line and only the first is a heading line. */
  lemma HeadingGroupLines(line: string, body: seq<string>)
    requires OneLine(line) && IsHeadingLine(line) && PlainLines(body)
    ensures var g := [line] + body;
      (forall j :: 0 <= j < |g| ==> OneLine(g[j])) && IsHeadingLine(g[0]) && NoInnerHeading(g)
  {
    var g := [line] + body;
    forall j | 0 <= j < |g|
      ensures OneLine(g[j]) && (j > 0 ==> !IsHeadingLine(g[j]))
    {
      if j > 0 {
        assert g[j] == body[j - 1];
      }
    }
  }

  /** One heading's written lines: non-empty, one line each, a heading line
      first unless it is the preamble, no heading line after the first, and
      read back by `parseHeading` as the heading itself. */
  lemma WrittenGroupReads(h: HeadingFields, first: bool)
    requires Readable(h) || (first && Preamble(h))
    ensures var g := WrittenGroup(h);
      g != [] && WriteHeadingToString(h) == Join(g, '\n') &&
      (forall j :: 0 <= j < |g| ==> OneLine(g[j])) &&
      (!first ==> IsHeadingLine(g[0])) && NoInnerHeading(g) && ParseHeading(g) == h
  {
    if HasHeadingLine(h) {
      WrittenLines(h);
      ReadWrittenHeading(h);
      HeadingLineOneLine(h);
      ReadWrittenLine(h);
      HeadingGroupLines(HeadingLine(h), h.body);
    }
  }

  /** The text joined from one-line lines is read back as those lines. */
  lemma ReadJoinedLines(lines: seq<string>)
    requires |lines| >= 1
    requires forall i :: 0 <= i < |lines| ==> OneLine(lines[i])
    ensures Lines(Join(lines, '\n')) == lines
  {
    JoinFree(lines, '\n', '\r');
    SplitJoin(lines, '\n');
  }

  /** The written lines of each heading, in order. */
  function WrittenGroups(hs: seq<HeadingFields>): seq<seq<string>>
  {
    seq(|hs|, k requires 0 <= k < |hs| => WrittenGroup(hs[k]))
  }

  /** The written document is its headings' written lines, joined by line
      feeds; those groups are cut exactly at heading lines, and each reads
      back as its heading. */
  lemma WrittenDocument(hs: seq<HeadingFields>)
    requires forall k :: 0 <= k < |hs| ==> Readable(hs[k]) || (k == 0 && Preamble(hs[k]))
    ensures var gs := WrittenGroups(hs);
      WriteHeadings(hs) == Join(Concat(gs), '\n') && Segmented(gs) &&
      (forall i :: 0 <= i < |Concat(gs)| ==> OneLine(Concat(gs)[i])) &&
      forall k :: 0 <= k < |hs| ==> ParseHeading(gs[k]) == hs[k]
  {
    var gs := WrittenGroups(hs);
    var strs := HeadingStrings(hs);
    forall k | 0 <= k < |hs|
      ensures gs[k] != [] && strs[k] == Join(gs[k], '\n')
      ensures forall j :: 0 <= j < |gs[k]| ==> OneLine(gs[k][j])
      ensures (k > 0 ==> IsHeadingLine(gs[k][0])) && NoInnerHeading(gs[k])
      ensures ParseHeading(gs[k]) == hs[k]
    {
      WrittenGroupReads(hs[k], k == 0);
    }
    JoinGroups(gs, strs, '\n');
    var lines := Concat(gs);
    forall i | 0 <= i < |lines|
      ensures OneLine(lines[i])
    {
      ConcatMember(gs, lines[i]);
    }
  }

  /** Writing a document and parsing it back gives the same heading records,
      when every heading is readable except perhaps a first preamble. */
  lemma DocumentRoundTrip(hs: seq<HeadingFields>)
    requires hs != []
    requires forall k :: 0 <= k < |hs| ==> Readable(hs[k]) || (k == 0 && Preamble(hs[k]))
    ensures ParseDocument(WriteHeadings(hs)) == hs
  {
    var gs := WrittenGroups(hs);
    WrittenDocument(hs);
    assert Concat(gs) == gs[0] + Concat(gs[1..]);
    ReadJoinedLines(Concat(gs));
    GroupsOfSegments(gs);
  }
}
