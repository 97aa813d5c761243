/** Worked examples: the heading lines and the heading the library's own
    examples use, with the fields read from them and the text written for
    them. */
module OrgVectors {
  import opened OrgStrings
  import opened OrgHeadline
  import opened OrgDrawers
  import opened OrgParsers
  import opened OrgWriters

  lemma ThreeStars()
    ensures Stars(3) == "***"
  {
    assert Stars(1) == "*";
    assert Stars(2) == "**";
  }

  lemma TwoTags()
    ensures Join(["tag1", "tag2"], ':') == "tag1:tag2"
  {
    assert ["tag1", "tag2"][1..] == ["tag2"];
  }

  const Full := Headline(3, Some("NEXT"), Some("B"), "Test Headline", ["tag1", "tag2"])

  lemma FullLayout()
    ensures Assemble(Full, " ") == "*** NEXT [#B] Test Headline :tag1:tag2:"
  {
    ThreeStars();
    TwoTags();
  }

  lemma FullRecoverable()
    ensures Recoverable(Full, " ")
  {
    assert ValidTag(Full.tags[0]) && ValidTag(Full.tags[1]);
    assert !IsSpace(Full.headline[|Full.headline| - 1]);
  }

  /** A heading line with every field reads back field by field; the space
      before the tag group is dropped. */
  lemma FullHeadline()
    ensures ParseHeadline("*** NEXT [#B] Test Headline :tag1:tag2:") ==
      Some(Headline(3, Some("NEXT"), Some("B"), "Test Headline", ["tag1", "tag2"]))
  {
    FullLayout();
    FullRecoverable();
    ParseAssembled(Full, " ");
  }

  const TagsNoSlots := Headline(3, None, None, "Test Headline", ["tag1", "tag2"])

  lemma TagsNoSlotsLayout()
    ensures Assemble(TagsNoSlots, " ") == "*** Test Headline :tag1:tag2:"
  {
    ThreeStars();
    TwoTags();
  }

  lemma TagsNoSlotsText()
    ensures TagsNoSlots.headline + TagPart(" ", TagsNoSlots.tags) == "Test Headline :tag1:tag2:"
  {
    TwoTags();
  }

  lemma TagsNoSlotsRecoverable()
    ensures Recoverable(TagsNoSlots, " ")
  {
    var rest := "Test Headline :tag1:tag2:";
    TagsNoSlotsText();
    assert rest[..4] == "Test";
    assert rest[0] != '[';
    assert ValidTag(TagsNoSlots.tags[0]) && ValidTag(TagsNoSlots.tags[1]);
    assert !IsSpace(TagsNoSlots.headline[|TagsNoSlots.headline| - 1]);
  }

  /** Without keyword or cookie the whole text before the tags is the
      headline, and both optional fields are absent. */
  lemma TagsOnly()
    ensures ParseHeadline("*** Test Headline :tag1:tag2:") ==
      Some(Headline(3, None, None, "Test Headline", ["tag1", "tag2"]))
  {
    TagsNoSlotsLayout();
    TagsNoSlotsRecoverable();
    ParseAssembled(TagsNoSlots, " ");
  }

  const CookieNoTags := Headline(3, None, Some("B"), "Test Headline", [])

  lemma CookieNoTagsLayout()
    ensures Assemble(CookieNoTags, " ") == "*** [#B] Test Headline"
  {
    ThreeStars();
  }

  /** Without keyword or tags the cookie is still read, and the tags are empty. */
  lemma PriorityOnly()
    ensures ParseHeadline("*** [#B] Test Headline") ==
      Some(Headline(3, None, Some("B"), "Test Headline", []))
  {
    CookieNoTagsLayout();
    assert CookieNoTags.headline[..4] == "Test";
    ParseAssembled(CookieNoTags, " ");
  }

  /** A second-level heading with keyword, cookie, two tags and two body lines. */
  const Heading1 := HeadingFields(Some(2), Some("NEXT"), Some("B"), Some("A 2nd level heading"),
    ["tag1", "tag2"], map[], ["  This is the first line", "  This is the second line"])

  lemma Heading1Parts()
    ensures Stars(2) == "**" && TodoPart(Heading1) == " NEXT" && PriorityPart(Heading1) == " [#B]"
    ensures HeadlinePart(Heading1) == " A 2nd level heading" && TagsPart(Heading1) == "\t:tag1:tag2:"
  {
    assert Stars(1) == "*";
    TwoTags();
  }

  lemma Heading1Text()
    ensures "**" + " NEXT" + " [#B]" + " A 2nd level heading" + "\t:tag1:tag2:" ==
      "** NEXT [#B] A 2nd level heading\t:tag1:tag2:"
  {
    assert "**" + " NEXT" + " [#B]" == "** NEXT [#B]";
  }

  /** Its heading line: two stars, the fields in order, a tab before the tags. */
  lemma Heading1Line()
    ensures HeadingLine(Heading1) == "** NEXT [#B] A 2nd level heading\t:tag1:tag2:"
  {
    Heading1Parts();
    Heading1Text();
    assert HeadingLine(Heading1) == Stars(2) + TodoPart(Heading1) + PriorityPart(Heading1) + HeadlinePart(Heading1) + TagsPart(Heading1);
  }

  /** The written heading is its line and its body lines, joined by line feeds. */
  lemma WrittenHeading()
    ensures WriteHeadingToString(Heading1) ==
      Join(["** NEXT [#B] A 2nd level heading\t:tag1:tag2:", "  This is the first line", "  This is the second line"], '\n')
  {
    Heading1Line();
    WrittenLines(Heading1);
  }

  /** A group of one heading line gives that line's fields, no drawers and
      an empty body. */
  lemma LoneHeading(line: string, h: Headline)
    requires ParseHeadline(line) == Some(h)
    ensures ParseHeading([line]) == HeadingFields(Some(h.level), h.todo, h.priority, Some(h.headline), h.tags, map[], [])
  {
    assert [line][1..] == [];
  }

  /** A group holding only the full heading line is that heading with no
      drawers and an empty body. */
  lemma LoneFullHeading()
    ensures ParseHeading(["*** NEXT [#B] Test Headline :tag1:tag2:"]) ==
      HeadingFields(Some(3), Some("NEXT"), Some("B"), Some("Test Headline"), ["tag1", "tag2"], map[], [])
  {
    FullHeadline();
    LoneHeading("*** NEXT [#B] Test Headline :tag1:tag2:", Full);
  }

  /** The pieces of a body holding one drawer of two content lines followed
      by two loose lines. */
  function OneDrawer(open: string, a: string, b: string, close: string, x: string, y: string): seq<Piece>
  {
    [Block(open, [a, b], close), Loose(x), Loose(y)]
  }

  lemma OneDrawerLines(open: string, a: string, b: string, close: string, x: string, y: string)
    ensures Flatten(OneDrawer(open, a, b, close, x, y)) == [open, a, b, close, x, y]
  {
    var ps := OneDrawer(open, a, b, close, x, y);
    assert ps[1..][1..] == ps[2..] && ps[2..][1..] == [];
    assert Flatten(ps[2..]) == [y];
    assert Flatten(ps[1..]) == [x, y];
  }

  lemma OneDrawerHoles(open: string, a: string, b: string, close: string, x: string, y: string)
    ensures PieceHoles(OneDrawer(open, a, b, close, x, y)) == [true, true, true, true, false, false]
  {
    var ps := OneDrawer(open, a, b, close, x, y);
    assert ps[1..][1..] == ps[2..] && ps[2..][1..] == [];
    assert PieceHoles(ps[2..]) == [false];
    assert PieceHoles(ps[1..]) == [false, false];
  }

  lemma OneDrawerStored(open: string, a: string, b: string, close: string, x: string, y: string)
    ensures Stored(map[], OneDrawer(open, a, b, close, x, y)) == map[Key(DrawerStart(open)) := [a, b]]
  {
    var ps := OneDrawer(open, a, b, close, x, y);
    var m := map[Key(DrawerStart(open)) := [a, b]];
    assert ps[1..][1..] == ps[2..] && ps[2..][1..] == [];
    assert Stored(m, ps[2..]) == m;
    assert Stored(m, ps[1..]) == m;
  }

  lemma OneDrawerWellFormed(open: string, a: string, b: string, close: string, x: string, y: string)
    requires DrawerStart(open).Some? && IsDrawerEnd(close)
    requires Inert(a) && Inert(b) && Inert(x) && Inert(y)
    ensures var ps := OneDrawer(open, a, b, close, x, y);
      forall i :: 0 <= i < |ps| ==> WellFormed(ps[i])
  {
    assert IsBlock(open, [a, b], close);
  }

  /** A body holding one drawer of two content lines followed by two loose
      lines: in remove mode the four drawer lines become holes, the loose
      lines stay, and the map holds the drawer's content under its name. */
  lemma OneDrawerThenLoose(open: string, a: string, b: string, close: string, x: string, y: string)
    requires DrawerStart(open).Some? && IsDrawerEnd(close)
    requires Inert(a) && Inert(b) && Inert(x) && Inert(y)
    ensures Drawers([open, a, b, close, x, y]) == map[DrawerStart(open).value := [a, b]]
    ensures Punched([open, a, b, close, x, y]) == [None, None, None, None, Some(x), Some(y)]
  {
    var ps := OneDrawer(open, a, b, close, x, y);
    OneDrawerLines(open, a, b, close, x, y);
    OneDrawerHoles(open, a, b, close, x, y);
    OneDrawerStored(open, a, b, close, x, y);
    OneDrawerWellFormed(open, a, b, close, x, y);
    DrawersOfPieces(ps);
  }

  /** The tab-indented PROPERTIES drawer opens and closes as drawers do. */
  lemma PropertiesOpens()
    ensures DrawerStart("\t:PROPERTIES:") == Some("PROPERTIES")
  {
    assert IsSpace('\t');
    assert "PROPERTIES"[..3] == "PRO";
    DrawerStartOf("\t", "PROPERTIES");
    assert "\t" + ":" + "PROPERTIES" + ":" == "\t:PROPERTIES:";
  }

  lemma TabEnd()
    ensures IsDrawerEnd("\t:END:")
  {
    assert IsSpace('\t');
    DrawerEndOf("\t");
    assert "\t" + ":END:" == "\t:END:";
  }

  const DateLine := "\t:date:2016-01-21 12:32:32"
  const PropLine := "\t:prop2:some property"
  const OtherLine := "Some other body lines of text"
  const LastLine := "that makes up the body"

  /** The body of a heading with a PROPERTIES drawer and two more lines. */
  const PropertiesBody := ["\t:PROPERTIES:", DateLine, PropLine, "\t:END:", OtherLine, LastLine]

  /** In remove mode the drawer lines become holes and the two other lines
      stay; the map holds the drawer's two content lines. */
  lemma RemovedDrawer()
    ensures Drawers(PropertiesBody) == map["PROPERTIES" := [DateLine, PropLine]]
    ensures Punched(PropertiesBody) == [None, None, None, None, Some(OtherLine), Some(LastLine)]
  {
    PropertiesOpens();
    TabEnd();
    NoClosingColon(DateLine);
    NoClosingColon(PropLine);
    NoClosingColon(OtherLine);
    NoClosingColon(LastLine);
    OneDrawerThenLoose("\t:PROPERTIES:", DateLine, PropLine, "\t:END:", OtherLine, LastLine);
  }
}
