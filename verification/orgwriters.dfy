/** The serializer: `writeHeadingToString` rebuilds a heading line from the
    fields of a heading and appends its body, and the document text joins
    the headings' strings with line feeds (the part of `writeHeadingsToFile`
    before the file is written). */
module OrgWriters {
  import opened OrgStrings
  import opened OrgHeadline
  import opened OrgParsers

  /** JavaScript truthiness of an optional string: present and not "". */
  predicate Truthy(s: Option<string>)
  {
    s.Some? && s.value != ""
  }

  /** `heading.level > 0`; a `null` level is not. */
  predicate HasHeadingLine(h: HeadingFields)
  {
    h.level.Some? && h.level.value > 0
  }

  /** `" "+todo` when the keyword is truthy. */
  function TodoPart(h: HeadingFields): string
  {
    if Truthy(h.todo) then " " + h.todo.value else ""
  }

  /** `" [#"+priority+"]"` when the priority is truthy. */
  function PriorityPart(h: HeadingFields): string
  {
    if Truthy(h.priority) then " [#" + h.priority.value + "]" else ""
  }

  /** `" "+headline` when the headline is truthy. */
  function HeadlinePart(h: HeadingFields): string
  {
    if Truthy(h.headline) then " " + h.headline.value else ""
  }

  /** `"\t:"+tags.join(":")+":"` when there are tags. */
  function TagsPart(h: HeadingFields): string
  {
    if |h.tags| > 0 then "\t:" + Join(h.tags, ':') + ":" else ""
  }

  /** The heading line: `level` stars, then each present field in turn. */
  function HeadingLine(h: HeadingFields): string
    requires HasHeadingLine(h)
  {
    Stars(h.level.value) + TodoPart(h) + PriorityPart(h) + HeadlinePart(h) + TagsPart(h)
  }

  /** The text after the stars. */
  function AfterStars(h: HeadingFields): string
  {
    TodoPart(h) + (PriorityPart(h) + (HeadlinePart(h) + TagsPart(h)))
  }

  /** The heading line is the stars followed by the present fields, the first
      of them introduced by a space or, for the tags, a tab. */
  lemma HeadingLineLayout(h: HeadingFields)
    requires HasHeadingLine(h)
    ensures HeadingLine(h) == Stars(h.level.value) + AfterStars(h)
    ensures AfterStars(h) == [] || AfterStars(h)[0] in {' ', '\t'}
  {
    var a, b, c, d := TodoPart(h), PriorityPart(h), HeadlinePart(h), TagsPart(h);
    assert Stars(h.level.value) + a + b + c + d == Stars(h.level.value) + (a + (b + (c + d)));
    if a == [] {
      if b == [] {
        if c == [] {
          assert AfterStars(h) == d;
        } else {
          assert AfterStars(h)[0] == c[0];
        }
      } else {
        assert AfterStars(h)[0] == b[0];
      }
    } else {
      assert AfterStars(h)[0] == a[0];
    }
  }

  /** `writeHeadingToString(heading)`: with a positive level, the heading line,
      a line feed and the body lines joined by line feeds; otherwise only
      the joined body. */
  function WriteHeadingToString(h: HeadingFields): (s: string)
    ensures !HasHeadingLine(h) ==> s == Join(h.body, '\n')
    ensures HasHeadingLine(h) ==> |s| > h.level.value && s[h.level.value] in {' ', '\t', '\n'}
  {
    if HasHeadingLine(h) then
      HeadingLineLayout(h);
      HeadingLine(h) + "\n" + Join(h.body, '\n')
    else Join(h.body, '\n')
  }

  /** The run of stars that starts `Stars(n) + rest` is exactly `n` long when
      `rest` does not start with a star. */
  lemma StarRunOfStars(n: nat, rest: string)
    requires rest == [] || rest[0] != '*'
    ensures StarRun(Stars(n) + rest) == n
  {
    var s := Stars(n) + rest;
    assert forall k :: 0 <= k < n ==> s[k] == Stars(n)[k];
    assert n < |s| ==> s[n] == rest[0];
  }

  /** With a positive level, the output starts with exactly `level` stars. */
  lemma WrittenStars(h: HeadingFields)
    requires HasHeadingLine(h)
    ensures StarRun(WriteHeadingToString(h)) == h.level.value
  {
    var n := h.level.value;
    var after, body := AfterStars(h), Join(h.body, '\n');
    HeadingLineLayout(h);
    var rest := after + ("\n" + body);
    assert WriteHeadingToString(h) == Stars(n) + rest by {
      assert WriteHeadingToString(h) == (Stars(n) + after) + "\n" + body;
    }
    assert rest[0] != '*' by {
      if after == [] {
        assert rest[0] == '\n';
      } else {
        assert rest[0] == after[0];
      }
    }
    StarRunOfStars(n, rest);
  }

  /** With a positive level and a non-empty body the output is the heading
      line and the body lines joined by line feeds. */
  lemma WrittenLines(h: HeadingFields)
    requires HasHeadingLine(h) && h.body != []
    ensures WriteHeadingToString(h) == Join([HeadingLine(h)] + h.body, '\n')
  {
    JoinConcat([HeadingLine(h)], h.body, '\n');
  }

  /** A body-less heading ends with a line feed: read back, it has the body `[""]`. */
  lemma BodylessTrailingNewline(h: HeadingFields)
    requires HasHeadingLine(h) && h.body == []
    requires '\n' !in HeadingLine(h)
    ensures Split(WriteHeadingToString(h), '\n') == [HeadingLine(h), ""]
  {
    SplitJoin([HeadingLine(h), ""], '\n');
    assert Join([HeadingLine(h), ""], '\n') == HeadingLine(h) + "\n";
  }

  /** The strings of the headings, in order. */
  function HeadingStrings(hs: seq<HeadingFields>): seq<string>
  {
    seq(|hs|, k requires 0 <= k < |hs| => WriteHeadingToString(hs[k]))
  }

  /** The text `writeHeadingsToFile` writes: the headings' strings joined by line feeds. */
  function WriteHeadings(hs: seq<HeadingFields>): (r: string)
    ensures hs == [] ==> r == ""
    ensures |hs| == 1 ==> r == WriteHeadingToString(hs[0])
  {
    Join(HeadingStrings(hs), '\n')
  }

  /** The document lists its headings in order, one line feed between neighbours. */
  lemma WriteHeadingsAppend(hs: seq<HeadingFields>, h: HeadingFields)
    requires hs != []
    ensures WriteHeadings(hs + [h]) == WriteHeadings(hs) + "\n" + WriteHeadingToString(h)
  {
    assert HeadingStrings(hs + [h]) == HeadingStrings(hs) + [WriteHeadingToString(h)];
    JoinConcat(HeadingStrings(hs), [WriteHeadingToString(h)], '\n');
  }
}
