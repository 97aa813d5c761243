/** `parseHeading` and the grouping that `parseContents` performs: a body
    of lines is cut into one group per heading, and each group becomes a
    heading record. */
module OrgParsers {
  import opened OrgStrings
  import opened OrgHeadline
  import opened OrgDrawers

  /** The record `parseHeading` returns (and the seven fields of a `Heading`).
      `None` stands for `undefined` / `null`. */
  datatype HeadingFields = HeadingFields(
    level: Option<int>,
    todo: Option<string>,
    priority: Option<string>,
    headline: Option<string>,
    tags: seq<string>,
    drawers: map<string, seq<string>>,
    body: seq<string>)

  /** `parseHeading(lines)`: a group whose first line is a heading line gives
      that line's fields, the rest as body and the body's drawers; any other
      group is a level-0 preamble whose body is every line. */
  function ParseHeading(lines: seq<string>): (r: HeadingFields)
    requires |lines| > 0
    ensures r.level.Some? && r.level.value >= 0
    ensures r.level.value > 0 <==> IsHeadingLine(lines[0])
    ensures r.level.value > 0 ==>
      r.level.value == StarRun(lines[0]) && r.headline.Some? &&
      r.body == lines[1..] && r.drawers == Drawers(r.body)
    ensures r.level.value > 0 ==>
      ParseHeadline(lines[0]) == Some(Headline(r.level.value, r.todo, r.priority, r.headline.value, r.tags))
    ensures r.level.value > 0 ==>
      (r.todo.Some? ==> r.todo.value in Keywords) && (r.priority.Some? ==> r.priority.value in Priorities) &&
      |r.tags| <= 2 && forall k :: 0 <= k < |r.tags| ==> ValidTag(r.tags[k])
    ensures r.level.value == 0 ==>
      r.todo.None? && r.priority.None? && r.headline.None? && r.tags == [] && r.drawers == map[] && r.body == lines
  {
    var parsed := ParseHeadline(lines[0]);
    if parsed.Some? then
      var h := parsed.value;
      var body := lines[1..];
      HeadingFields(Some(h.level), h.todo, h.priority, Some(h.headline), h.tags, Drawers(body), body)
    else
      HeadingFields(Some(0), None, None, None, [], map[], lines)
  }

  /** The groups `parseContents` forms from the lines still to read, `rest`,
      when `cur` holds the lines of the group being collected: a heading line
      closes a non-empty group and opens the next one. */
  function GroupsFrom(cur: seq<string>, rest: seq<string>): (r: seq<seq<string>>)
    ensures forall k :: 0 <= k < |r| ==> r[k] != []
    ensures r == [] <==> cur == [] && rest == []
    ensures |r| <= |cur| + |rest|
    decreases |rest|
  {
    if |rest| == 0 then (if cur == [] then [] else [cur])
    else if IsHeadingLine(rest[0]) && cur != [] then [cur] + GroupsFrom([rest[0]], rest[1..])
    else GroupsFrom(cur + [rest[0]], rest[1..])
  }

  /** The groups of a whole line list: none empty, at most one per line,
      and at least one whenever there is a line. */
  function Groups(lines: seq<string>): (r: seq<seq<string>>)
    ensures forall k :: 0 <= k < |r| ==> r[k] != []
    ensures r == [] <==> lines == []
    ensures |r| <= |lines|
  {
    GroupsFrom([], lines)
  }

  /** The lines of the groups, in order. */
  function Concat(gs: seq<seq<string>>): seq<string>
    decreases |gs|
  {
    if |gs| == 0 then [] else gs[0] + Concat(gs[1..])
  }

  /** No line but the first is a heading line. */
  predicate NoInnerHeading(g: seq<string>)
  {
    forall j :: 1 <= j < |g| ==> !IsHeadingLine(g[j])
  }

  /** Groups cut exactly at heading lines: none is empty, every group after
      the first starts with a heading line, and no other line of any group
      is one. */
  predicate Segmented(gs: seq<seq<string>>)
  {
    forall k :: 0 <= k < |gs| ==> gs[k] != [] && (k > 0 ==> IsHeadingLine(gs[k][0])) && NoInnerHeading(gs[k])
  }

  lemma {:induction false} GroupsFromSegmented(cur: seq<string>, rest: seq<string>)
    requires NoInnerHeading(cur)
    ensures var gs := GroupsFrom(cur, rest);
      Concat(gs) == cur + rest && Segmented(gs) &&
      (cur != [] ==> |gs| > 0 && gs[0][0] == cur[0]) &&
      (cur + rest != [] ==> |gs| > 0)
    decreases |rest|
  {
    var gs := GroupsFrom(cur, rest);
    if |rest| == 0 {
      if cur != [] {
        assert gs == [cur];
        assert Concat(gs) == cur + Concat([]);
      }
    } else if IsHeadingLine(rest[0]) && cur != [] {
      var tail := GroupsFrom([rest[0]], rest[1..]);
      GroupsFromSegmented([rest[0]], rest[1..]);
      assert gs == [cur] + tail;
      assert gs[1..] == tail;
      assert Concat(gs) == cur + Concat(tail);
      assert [rest[0]] + rest[1..] == rest;
      forall k | 0 < k < |gs|
        ensures IsHeadingLine(gs[k][0])
      {
        assert gs[k] == tail[k - 1];
      }
    } else {
      var next := cur + [rest[0]];
      assert NoInnerHeading(next) by {
        forall j | 1 <= j < |next|
          ensures !IsHeadingLine(next[j])
        {
          if j < |cur| {
            assert next[j] == cur[j];
          }
        }
      }
      GroupsFromSegmented(next, rest[1..]);
      assert next + rest[1..] == cur + rest;
      if cur != [] {
        assert next[0] == cur[0];
      }
    }
  }

  /** The groups of `parseContents` concatenate back to the line list and
      are cut exactly at heading lines. */
  lemma GroupsSegment(lines: seq<string>)
    ensures Concat(Groups(lines)) == lines
    ensures Segmented(Groups(lines))
  {
    GroupsFromSegmented([], lines);
  }

  /** Lines that are not heading lines join the group being collected. */
  lemma {:induction false} Absorb(cur: seq<string>, tail: seq<string>, more: seq<string>)
    requires forall j :: 0 <= j < |tail| ==> !IsHeadingLine(tail[j])
    ensures GroupsFrom(cur, tail + more) == GroupsFrom(cur + tail, more)
    decreases |tail|
  {
    if |tail| == 0 {
      assert tail + more == more;
      assert cur + tail == cur;
    } else {
      assert (tail + more)[0] == tail[0];
      assert (tail + more)[1..] == tail[1..] + more;
      Absorb(cur + [tail[0]], tail[1..], more);
      assert cur + [tail[0]] + tail[1..] == cur + tail;
    }
  }

  /** A group that starts with a heading line and has no other heading line
      is collected whole from the position where it starts. */
  lemma Collect(cur: seq<string>, g: seq<string>, more: seq<string>)
    requires g != [] && NoInnerHeading(g)
    requires cur == [] || IsHeadingLine(g[0])
    ensures GroupsFrom(cur, g + more) == if cur == [] then GroupsFrom(g, more) else [cur] + GroupsFrom(g, more)
  {
    var tail := g[1..];
    var x := g + more;
    assert x[0] == g[0] && x[1..] == tail + more;
    if cur == [] {
      assert cur + [g[0]] == [g[0]];
      assert GroupsFrom(cur, x) == GroupsFrom([g[0]], tail + more);
    } else {
      assert GroupsFrom(cur, x) == [cur] + GroupsFrom([g[0]], tail + more);
    }
    forall j | 0 <= j < |tail|
      ensures !IsHeadingLine(tail[j])
    {
      assert tail[j] == g[j + 1];
    }
    Absorb([g[0]], tail, more);
    assert [g[0]] + tail == g;
  }

  /** Groups that each start with a heading line are found again, after the
      group being collected, by the grouping of their concatenation. */
  lemma {:induction false} GroupsAfter(cur: seq<string>, gs: seq<seq<string>>)
    requires cur != []
    requires forall k :: 0 <= k < |gs| ==> gs[k] != [] && IsHeadingLine(gs[k][0]) && NoInnerHeading(gs[k])
    ensures GroupsFrom(cur, Concat(gs)) == [cur] + gs
    decreases |gs|
  {
    if |gs| > 0 {
      assert Concat(gs) == gs[0] + Concat(gs[1..]);
      Collect(cur, gs[0], Concat(gs[1..]));
      GroupsAfter(gs[0], gs[1..]);
      assert [gs[0]] + gs[1..] == gs;
    }
  }

  /** The grouping is unique: groups cut exactly at heading lines are what
      `parseContents` forms from their concatenation. */
  lemma GroupsOfSegments(gs: seq<seq<string>>)
    requires Segmented(gs)
    ensures Groups(Concat(gs)) == gs
  {
    if |gs| > 0 {
      assert Concat(gs) == gs[0] + Concat(gs[1..]);
      Collect([], gs[0], Concat(gs[1..]));
      GroupsAfter(gs[0], gs[1..]);
      assert [gs[0]] + gs[1..] == gs;
    }
  }

  /** The lines `parseContents` reads from a text: `\r\n` normalised to `\n`,
      then split on `\n`.  There is always at least one line. */
  function Lines(contents: string): (r: seq<string>)
    ensures |r| >= 1
    ensures forall k :: 0 <= k < |r| ==> '\n' !in r[k]
  {
    Split(NormalizeNewlines(contents), '\n')
  }

  /** The heading records `parseContents` builds, one per group. */
  function ParseDocument(contents: string): (r: seq<HeadingFields>)
    ensures |r| == |Groups(Lines(contents))| >= 1
  {
    var gs := Groups(Lines(contents));
    GroupsSegment(Lines(contents));
    seq(|gs|, k requires 0 <= k < |gs| => ParseHeading(gs[k]))
  }

  /** Every text, even the empty one, yields at least one heading, and only the
      first can be a level-0 preamble. */
  lemma DocumentHeadings(contents: string)
    ensures |ParseDocument(contents)| >= 1
    ensures forall k :: 0 < k < |ParseDocument(contents)| ==> ParseDocument(contents)[k].level.value > 0
  {
    var gs := Groups(Lines(contents));
    GroupsSegment(Lines(contents));
    forall k | 0 < k < |ParseDocument(contents)|
      ensures ParseDocument(contents)[k].level.value > 0
    {
      assert IsHeadingLine(gs[k][0]);
    }
  }
}
