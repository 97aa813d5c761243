/** `parseContents`: reads a whole Org text into a list of `Heading`
    objects, one per group of lines.  It sits in its own module because it
    builds `Heading` objects while `Heading` itself calls `parseHeading`. */
module OrgContents {
  import opened OrgStrings
  import opened OrgHeadline
  import opened OrgParsers
  import opened OrgObjects

  /** One more line read by the grouping: the groups already closed and the
      groups still to come together stay the same. */
  lemma GroupsStep(done: seq<seq<string>>, cur: seq<string>, lines: seq<string>, i: nat,
                   done': seq<seq<string>>, cur': seq<string>)
    requires i < |lines|
    requires if IsHeadingLine(lines[i]) && cur != []
      then done' == done + [cur] && cur' == [lines[i]]
      else done' == done && cur' == cur + [lines[i]]
    ensures done' + GroupsFrom(cur', lines[i + 1..]) == done + GroupsFrom(cur, lines[i..])
  {
    assert lines[i..][0] == lines[i];
    assert lines[i..][1..] == lines[i + 1..];
    if IsHeadingLine(lines[i]) && cur != [] {
      assert done + [cur] + GroupsFrom(cur', lines[i + 1..]) == done + ([cur] + GroupsFrom(cur', lines[i + 1..]));
    }
  }

  /** Each object holds the fields `parseHeading` gives for its group.  The
      quantifier is triggered only by the fields of an object, so that the
      parser is consulted for one group at a time. */
  ghost predicate Built(headings: seq<Heading>, groups: seq<seq<string>>)
    reads headings
  {
    |headings| == |groups| &&
    forall k {:trigger headings[k].Fields()} :: 0 <= k < |headings| ==>
      groups[k] != [] && headings[k].Fields() == ParseHeading(groups[k])
  }

  /** `headings.push(new Heading(headingLines))`. */
  method Push(headings: seq<Heading>, ghost groups: seq<seq<string>>, headingLines: seq<string>)
    returns (headings': seq<Heading>, ghost groups': seq<seq<string>>)
    requires Built(headings, groups) && headingLines != []
    ensures Built(headings', groups') && groups' == groups + [headingLines]
    ensures |headings'| == |headings| + 1 && headings'[..|headings|] == headings && fresh(headings'[|headings|])
  {
    var heading := new Heading(Some(headingLines));
    headings' := headings + [heading];
    groups' := groups + [headingLines];
    forall k | 0 <= k < |headings|
      ensures groups'[k] != [] && headings'[k].Fields() == ParseHeading(groups'[k])
    {
      assert old(headings[k].Fields()) == ParseHeading(groups[k]);
      assert headings'[k] == headings[k] && groups'[k] == groups[k];
    }
  }

  /** The callback `parseContents` hands to `_.each`, for one line.  A heading
      line that follows collected lines turns them into a new `Heading`
      (recorded in the ghost list `groups`) and starts a new collection; every
      line then joins the collection. */
  method Visit(headings: seq<Heading>, headingLines: seq<string>, ghost groups: seq<seq<string>>, line: string)
    returns (headings': seq<Heading>, headingLines': seq<string>, ghost groups': seq<seq<string>>)
    requires Built(headings, groups)
    ensures Built(headings', groups')
    ensures |headings| <= |headings'| <= |headings| + 1 && headings'[..|headings|] == headings
    ensures forall k :: |headings| <= k < |headings'| ==> fresh(headings'[k])
    ensures if IsHeadingLine(line) && headingLines != []
      then groups' == groups + [headingLines] && headingLines' == [line]
      else groups' == groups && headingLines' == headingLines + [line]
  {
    headings', headingLines', groups' := headings, headingLines, groups;
    if IsHeadingLine(line) {
      if |headingLines'| > 0 {
        headings', groups' := Push(headings', groups', headingLines');
        headingLines' := [];
      }
    }
    headingLines' := headingLines' + [line];
  }

  /** Once every line is read, the groups are the closed ones and, if any
      lines are still collected, one group of them. */
  lemma LastGroup(done: seq<seq<string>>, cur: seq<string>, lines: seq<string>)
    requires done + GroupsFrom(cur, lines[|lines|..]) == Groups(lines)
    ensures Groups(lines) == if cur == [] then done else done + [cur]
  {
    assert lines[|lines|..] == [];
  }

  /** Objects built from the groups of a text hold exactly the records of the parsed document. */
  lemma BuiltDocument(headings: seq<Heading>, contents: string)
    requires Built(headings, Groups(Lines(contents)))
    ensures |headings| == |ParseDocument(contents)|
    ensures forall k :: 0 <= k < |headings| ==> headings[k].Fields() == ParseDocument(contents)[k]
  {
  }

  /** The body of `parseContents` after the split: the `_.each` over the
      lines hands every line to `Visit`, and the lines still collected at the
      end become the last `Heading`.  The objects hold the groups' records. */
  method CollectHeadings(lines: seq<string>) returns (headings: seq<Heading>)
    ensures Built(headings, Groups(lines))
    ensures forall k :: 0 <= k < |headings| ==> fresh(headings[k])
    ensures forall i, j :: 0 <= i < j < |headings| ==> headings[i] != headings[j]
  {
    headings := [];
    var headingLines: seq<string> := [];
    ghost var done: seq<seq<string>> := [];
    var i := 0;
    while i < |lines|
      invariant 0 <= i <= |lines|
      invariant done + GroupsFrom(headingLines, lines[i..]) == Groups(lines)
      invariant Built(headings, done)
      invariant forall k :: 0 <= k < |headings| ==> fresh(headings[k])
      invariant forall i, j :: 0 <= i < j < |headings| ==> headings[i] != headings[j]
    {
      ghost var done0, cur0 := done, headingLines;
      headings, headingLines, done := Visit(headings, headingLines, done, lines[i]);
      GroupsStep(done0, cur0, lines, i, done, headingLines);
      i := i + 1;
    }
    LastGroup(done, headingLines, lines);
    if |headingLines| > 0 {
      headings, done := Push(headings, done, headingLines);
    }
  }

  /** `parseContents(contents)`: normalises the line ends, splits the text
      into lines and builds one `Heading` per group of lines, starting a new
      one at every heading line that follows collected lines.  The result is
      one fresh object per group, in order, no two the same, holding the
      parsed document. */
  method ParseContents(contents: string) returns (headings: seq<Heading>)
    ensures Built(headings, Groups(Lines(contents)))
    ensures |headings| == |ParseDocument(contents)|
    ensures forall k :: 0 <= k < |headings| ==> headings[k].Fields() == ParseDocument(contents)[k]
    ensures forall k :: 0 <= k < |headings| ==> fresh(headings[k])
    ensures forall i, j :: 0 <= i < j < |headings| ==> headings[i] != headings[j]
  {
    headings := CollectHeadings(Lines(contents));
    BuiltDocument(headings, contents);
  }
}
