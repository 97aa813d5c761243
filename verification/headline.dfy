/** The heading-line grammar of lib/orgparsers.js: the heading test of line 9
    (one or more stars, then a space), the metadata pattern of line 7 (the
    star run, a space, an optional `TODO`/`NEXT`/`DONE` keyword and a space,
    an optional `[#A]`/`[#B]`/`[#C]` cookie and a space, a lazy headline,
    and an optional whitespace-led tag group of one or two segments at the
    end of the line)
    and `parseTags`, each written out as a character-level recogniser.

    The backtracking of the pattern is resolved as follows.  A star run can
    only be followed by the mandatory space if it is the maximal one; since
    `.` is taken to match every character, everything after the optional
    keyword and cookie always matches, so each optional group is taken
    whenever its text is present; and the lazy headline ends at the earliest
    index from which `\s*` and a one- or two-segment tag group reach the end
    of the line, or else at the end of the line. */
module OrgHeadline {
  import opened OrgStrings

  /** The fields `parseHeadline` returns; the headline group always participates, so it is a string. */
  datatype Headline = Headline(level: nat, todo: Option<string>, priority: Option<string>,
                               headline: string, tags: seq<string>)

  const Keywords: set<string> := {"TODO", "NEXT", "DONE"}
  const Priorities: set<string> := {"A", "B", "C"}

  /** The end of the run of `*` that starts at index `i`. */
  function StarRunFrom(s: string, i: nat): (n: nat)
    requires i <= |s|
    ensures i <= n <= |s|
    ensures forall k :: i <= k < n ==> s[k] == '*'
    ensures n < |s| ==> s[n] != '*'
    decreases |s| - i
  {
    if i == |s| || s[i] != '*' then i else StarRunFrom(s, i + 1)
  }

  /** Length of the run of `*` that starts the line. */
  function StarRun(s: string): (n: nat)
    ensures n <= |s|
    ensures forall k :: 0 <= k < n ==> s[k] == '*'
    ensures n < |s| ==> s[n] != '*'
  {
    StarRunFrom(s, 0)
  }

  /** ORG_REGEX_HEADLINE, `^\*+ .*$`: one or more stars, then a space. */
  predicate IsHeadingLine(line: string)
    ensures IsHeadingLine(line) ==> |line| >= 2 && line[0] == '*'
    ensures |line| >= 2 && line[0] == '*' && line[1] == ' ' ==> IsHeadingLine(line)
  {
    var n := StarRun(line);
    1 <= n < |line| && line[n] == ' '
  }

  /** The heading test is exactly its regular expression: some run of one or more stars followed by a space. */
  lemma HeadingLineMeaning(line: string)
    ensures IsHeadingLine(line) <==>
      exists n :: 1 <= n < |line| && line[n] == ' ' && forall k :: 0 <= k < n ==> line[k] == '*'
  {
    if exists n :: 1 <= n < |line| && line[n] == ' ' && forall k :: 0 <= k < n ==> line[k] == '*' {
      var n :| 1 <= n < |line| && line[n] == ' ' && forall k :: 0 <= k < n ==> line[k] == '*';
      assert StarRun(line) == n;
    }
  }

  /** `(TODO|NEXT|DONE) ` at the start of `s`. */
  predicate StartsWithKeyword(s: string)
  {
    |s| >= 5 && s[..4] in Keywords && s[4] == ' '
  }

  /** `\[#(A|B|C)\] ` at the start of `s`. */
  predicate StartsWithCookie(s: string)
  {
    |s| >= 5 && s[0] == '[' && s[1] == '#' && [s[2]] in Priorities && s[3] == ']' && s[4] == ' '
  }

  /** `\:[^:]+\:(?:[^:]+\:)?` matching all of `t`: colons around one or two non-empty colon-free segments
      joined by a colon. */
  predicate IsTagGroup(t: string)
  {
    |t| >= 2 && t[0] == ':' && t[|t| - 1] == ':' &&
    var tags := ParseTags(t);
    |tags| <= 2 && forall k :: 0 <= k < |tags| ==> tags[k] != ""
  }

  /** `\s*` followed by a tag group that reaches the end of the line, starting at index `i`. */
  predicate TagsAt(s: string, i: nat)
    requires i <= |s|
  {
    IsTagGroup(s[SkipSpace(s, i)..])
  }

  /** Where the lazy headline capture stops: the earliest index from `i` on at which the tags
      reach the end of the line, and the end of the line when there is none. */
  function HeadlineEnd(s: string, i: nat): (e: nat)
    requires i <= |s|
    ensures i <= e <= |s|
    ensures e < |s| ==> TagsAt(s, e)
    decreases |s| - i
  {
    if i == |s| || TagsAt(s, i) then i else HeadlineEnd(s, i + 1)
  }

  /** The part of a tag string between its first and last character (`slice(1).slice(0,-1)`). */
  function Inner(t: string): string
  {
    if |t| >= 2 then t[1..|t| - 1] else ""
  }

  /** parseTags: drop the outer colons and split on `:`. */
  function ParseTags(tagString: string): (tags: seq<string>)
    ensures |tags| >= 1
    ensures Join(tags, ':') == Inner(tagString)
    ensures forall k :: 0 <= k < |tags| ==> ':' !in tags[k]
  {
    Split(Inner(tagString), ':')
  }

  /** The tag text the writer emits after the tab: `":" + tags.join(":") + ":"`. */
  function TagText(tags: seq<string>): string
  {
    ":" + Join(tags, ':') + ":"
  }

  predicate ValidTag(t: string)
  {
    t != "" && ':' !in t
  }

  /** Rendering a non-empty list of colon-free tags and parsing it back gives the list. */
  lemma TagsRoundTrip(tags: seq<string>)
    requires |tags| >= 1
    requires forall k :: 0 <= k < |tags| ==> ':' !in tags[k]
    ensures ParseTags(TagText(tags)) == tags
  {
    var t := TagText(tags);
    assert Inner(t) == Join(tags, ':');
    SplitJoin(tags, ':');
  }

  /** A recognised tag group holds one or two valid tags, and it is exactly their rendering. */
  lemma TagGroupTags(t: string)
    requires IsTagGroup(t)
    ensures 1 <= |ParseTags(t)| <= 2
    ensures forall k :: 0 <= k < |ParseTags(t)| ==> ValidTag(ParseTags(t)[k])
    ensures TagText(ParseTags(t)) == t
  {
    assert t == ":" + Inner(t) + ":";
  }

  /** Tags of one or two valid entries render to a recognised tag group. */
  lemma ValidTagsFormGroup(tags: seq<string>)
    requires 1 <= |tags| <= 2
    requires forall k :: 0 <= k < |tags| ==> ValidTag(tags[k])
    ensures IsTagGroup(TagText(tags))
  {
    TagsRoundTrip(tags);
  }

  /** `Array(n + 1).join('*')`: a run of `n` stars. */
  function Stars(n: nat): (r: string)
    ensures |r| == n
    ensures forall k :: 0 <= k < n ==> r[k] == '*'
  {
    if n == 0 then "" else Stars(n - 1) + "*"
  }

  /** The optional `(TODO|NEXT|DONE) ` group at the start of `s`: its capture when the text is there. */
  function KeywordOf(s: string): (r: Option<string>)
    ensures r.Some? <==> StartsWithKeyword(s)
    ensures r.Some? ==> r.value in Keywords && |s| >= 5 && s[..5] == r.value + " "
  {
    if StartsWithKeyword(s) then Some(s[..4]) else None
  }

  /** The optional `\[#(A|B|C)\] ` group at the start of `s`: the letter, when the text is there. */
  function CookieOf(s: string): (r: Option<string>)
    ensures r.Some? <==> StartsWithCookie(s)
    ensures r.Some? ==> r.value in Priorities && |s| >= 5 && s[..5] == "[#" + r.value + "] "
  {
    if StartsWithCookie(s) then Some([s[2]]) else None
  }

  /** What follows an optional five-character group at the start of `s`. */
  function AfterSlot(s: string, slot: Option<string>): string
  {
    if slot.Some? && |s| >= 5 then s[5..] else s
  }

  /** The lazy headline capture and the tags of the group that ends the text after it. */
  function ReadText(s: string): (r: (string, seq<string>))
    ensures |r.1| <= 2 && forall k :: 0 <= k < |r.1| ==> ValidTag(r.1[k])
  {
    var e := HeadlineEnd(s, 0);
    (s[..e], EndTags(s, e))
  }

  /** The tags of the group that ends `s` from index `e` on, and none when `e` is the end of `s`. */
  function EndTags(s: string, e: nat): (tags: seq<string>)
    requires e <= |s|
    requires e < |s| ==> TagsAt(s, e)
    ensures |tags| <= 2 && forall k :: 0 <= k < |tags| ==> ValidTag(tags[k])
  {
    if e < |s| then
      TagGroupTags(s[SkipSpace(s, e)..]);
      ParseTags(s[SkipSpace(s, e)..])
    else []
  }

  /** The fields the pattern captures from the text after the stars and the space. */
  function ReadFields(n: nat, s: string): (h: Headline)
    ensures h.level == n
    ensures |h.tags| <= 2 && forall k :: 0 <= k < |h.tags| ==> ValidTag(h.tags[k])
    ensures h.todo.Some? ==> h.todo.value in Keywords
    ensures h.priority.Some? ==> h.priority.value in Priorities
    ensures h.todo.None? ==> !StartsWithKeyword(s)
    ensures h.priority.None? ==> !StartsWithCookie(AfterSlot(s, h.todo))
  {
    var todo := KeywordOf(s);
    var afterTodo := AfterSlot(s, todo);
    var priority := CookieOf(afterTodo);
    var text := ReadText(AfterSlot(afterTodo, priority));
    Headline(n, todo, priority, text.0, text.1)
  }

  /** parseHeadline: null unless the line is a heading line; otherwise the five captured fields. */
  function ParseHeadline(line: string): (r: Option<Headline>)
    ensures r.None? <==> !IsHeadingLine(line)
    ensures r.Some? ==> r.value.level == StarRun(line) >= 1 && line[r.value.level] == ' '
    ensures r.Some? ==> |r.value.tags| <= 2 && forall k :: 0 <= k < |r.value.tags| ==> ValidTag(r.value.tags[k])
    ensures r.Some? && r.value.todo.Some? ==> r.value.todo.value in Keywords
    ensures r.Some? && r.value.priority.Some? ==> r.value.priority.value in Priorities
  {
    if !IsHeadingLine(line) then None
    else Some(ReadFields(StarRun(line), line[StarRun(line) + 1..]))
  }

  /** The text a present keyword or cookie occupies. */
  function KeywordText(todo: Option<string>): string
  {
    if todo.Some? then todo.value + " " else ""
  }

  function CookieText(priority: Option<string>): string
  {
    if priority.Some? then "[#" + priority.value + "] " else ""
  }

  /** The tag group and the whitespace before it, or nothing when there are no tags. */
  function TagPart(gap: string, tags: seq<string>): string
  {
    if tags == [] then "" else gap + TagText(tags)
  }

  /** A heading line laid out from its fields, with `gap` between headline and tag group. */
  function Assemble(h: Headline, gap: string): string
  {
    Stars(h.level) + (" " + (KeywordText(h.todo) + (CookieText(h.priority) + (h.headline + TagPart(gap, h.tags)))))
  }

  /** Conditions under which `Assemble(h, gap)` reads back as `h`: the keyword and cookie are from the
      fixed sets, the text after an empty slot does not look like that slot, the headline holds no
      colon (so no tag group starts inside it), it has no trailing whitespace when tags follow,
      and there are at most two valid tags. */
  predicate Recoverable(h: Headline, gap: string)
  {
    var rest := h.headline + TagPart(gap, h.tags);
    h.level >= 1 &&
    (h.todo.Some? ==> h.todo.value in Keywords) &&
    (h.priority.Some? ==> h.priority.value in Priorities) &&
    (h.todo.None? && h.priority.None? ==> !StartsWithKeyword(rest)) &&
    (h.priority.None? ==> !StartsWithCookie(rest)) &&
    ':' !in h.headline &&
    AllSpace(gap) &&
    (h.tags != [] ==> h.headline == "" || !IsSpace(h.headline[|h.headline| - 1])) &&
    |h.tags| <= 2 && (forall k :: 0 <= k < |h.tags| ==> ValidTag(h.tags[k]))
  }

  /** A run of `n >= 1` stars and a space starts a heading line whose star run is exactly `n`. */
  lemma StarsThenSpace(n: nat, rest: string)
    requires n >= 1
    ensures var line := Stars(n) + (" " + rest);
      IsHeadingLine(line) && StarRun(line) == n && line[StarRun(line) + 1..] == rest
  {
    var line := Stars(n) + (" " + rest);
    assert line[n] == ' ';
    assert forall k :: 0 <= k < n ==> line[k] == '*';
    assert line[n + 1..] == rest;
  }

  /** A heading line is its star run, a space and the rest. */
  lemma StarsSplit(line: string)
    requires IsHeadingLine(line)
    ensures line == Stars(StarRun(line)) + (" " + line[StarRun(line) + 1..])
  {
    var n := StarRun(line);
    assert line[..n] == Stars(n);
    assert line == line[..n] + ([line[n]] + line[n + 1..]);
  }

  /** The two optional groups read back what was laid out in front of `rest`, when `rest` does not
      itself look like a group that was left out. */
  lemma SlotsRead(todo: Option<string>, priority: Option<string>, rest: string)
    requires todo.Some? ==> todo.value in Keywords
    requires priority.Some? ==> priority.value in Priorities
    requires todo.None? && priority.None? ==> !StartsWithKeyword(rest)
    requires priority.None? ==> !StartsWithCookie(rest)
    ensures var s := KeywordText(todo) + (CookieText(priority) + rest);
      KeywordOf(s) == todo && CookieOf(AfterSlot(s, todo)) == priority &&
      AfterSlot(AfterSlot(s, todo), priority) == rest
  {
    var c := CookieText(priority) + rest;
    var s := KeywordText(todo) + c;
    if priority.Some? {
      assert |priority.value| == 1 by {
        assert priority.value in {"A", "B", "C"};
      }
      assert c[..5] == "[#" + priority.value + "] ";
      assert StartsWithCookie(c) && [c[2]] == priority.value;
      assert c[5..] == rest;
    }
    assert CookieOf(c) == priority && AfterSlot(c, priority) == rest;
    if todo.Some? {
      assert |todo.value| == 4 by {
        assert todo.value in {"TODO", "NEXT", "DONE"};
      }
      assert s[..4] == todo.value && s[4] == ' ';
      assert AfterSlot(s, todo) == c;
    } else if priority.Some? {
      assert s[..4][0] == '[';
      assert !StartsWithKeyword(s);
    }
  }

  /** Any text is the optional groups it starts with followed by what comes after them. */
  lemma SlotsSplit(s: string)
    ensures var todo := KeywordOf(s);
      var priority := CookieOf(AfterSlot(s, todo));
      s == KeywordText(todo) + (CookieText(priority) + AfterSlot(AfterSlot(s, todo), priority))
  {
    var todo := KeywordOf(s);
    var s1 := AfterSlot(s, todo);
    var priority := CookieOf(s1);
    if todo.Some? {
      assert s == s[..5] + s1;
    }
    if priority.Some? {
      assert s1 == s1[..5] + s1[5..];
      assert s1[..5] == "[#" + priority.value + "] ";
    }
  }

  /** No tag group reaching the end starts before `HeadlineEnd`: the capture is the shortest one. */
  lemma {:induction false} HeadlineEndEarliest(s: string, i: nat)
    requires i <= |s|
    ensures forall k :: i <= k < HeadlineEnd(s, i) ==> !TagsAt(s, k)
    decreases |s| - i
  {
    if i < |s| && !TagsAt(s, i) {
      HeadlineEndEarliest(s, i + 1);
    }
  }

  /** The earliest-end property pins down `HeadlineEnd`. */
  lemma {:induction false} HeadlineEndIs(s: string, i: nat, e: nat)
    requires i <= e <= |s|
    requires forall k :: i <= k < e ==> !TagsAt(s, k)
    requires e < |s| ==> TagsAt(s, e)
    ensures HeadlineEnd(s, i) == e
    decreases e - i
  {
    if i < e {
      assert !TagsAt(s, i);
      HeadlineEndIs(s, i + 1, e);
    }
  }

  /** No tag group can start inside a colon-free headline that is followed by nothing or by text
      starting after a non-space character. */
  lemma NoTagsInsideHeadline(hl: string, rest: string, k: nat)
    requires ':' !in hl
    requires rest == "" || hl == "" || !IsSpace(hl[|hl| - 1])
    requires k < |hl|
    ensures !TagsAt(hl + rest, k)
  {
    var s := hl + rest;
    var j := SkipSpace(s, k);
    if j < |hl| {
      assert s[j] == hl[j];
      assert s[j..][0] != ':';
    } else {
      assert IsSpace(s[|hl| - 1]);
      assert s[j..] == "";
    }
  }

  /** After the headline, whitespace and a valid tag group form the group that ends the text, and
      its tags are read back. */
  lemma TagPartRead(hl: string, gap: string, tags: seq<string>)
    requires AllSpace(gap)
    requires 1 <= |tags| <= 2 && forall k :: 0 <= k < |tags| ==> ValidTag(tags[k])
    ensures var s := hl + TagPart(gap, tags);
      TagsAt(s, |hl|) && EndTags(s, |hl|) == tags
  {
    var s := hl + TagPart(gap, tags);
    var e := |hl|;
    var tt := TagText(tags);
    ValidTagsFormGroup(tags);
    assert s == hl + gap + tt;
    assert s[e + |gap|] == ':';
    assert SkipSpace(s, e) == e + |gap|;
    assert s[e + |gap|..] == tt;
    TagsRoundTrip(tags);
  }

  /** A colon-free headline followed by whitespace and a valid tag group reads back as the
      headline and the tags. */
  lemma TextRead(hl: string, gap: string, tags: seq<string>)
    requires ':' !in hl && AllSpace(gap)
    requires tags != [] ==> hl == "" || !IsSpace(hl[|hl| - 1])
    requires |tags| <= 2 && forall k :: 0 <= k < |tags| ==> ValidTag(tags[k])
    ensures ReadText(hl + TagPart(gap, tags)) == (hl, tags)
  {
    var s := hl + TagPart(gap, tags);
    forall k | 0 <= k < |hl|
      ensures !TagsAt(s, k)
    {
      NoTagsInsideHeadline(hl, TagPart(gap, tags), k);
    }
    if tags != [] {
      TagPartRead(hl, gap, tags);
    }
    HeadlineEndIs(s, 0, |hl|);
    assert s[..|hl|] == hl;
  }

  /** The whitespace between the headline read from `s` and its tag group. */
  function TextGap(s: string): (gap: string)
    ensures AllSpace(gap)
  {
    var e := HeadlineEnd(s, 0);
    if e < |s| then
      SkippedSpace(s, e);
      s[e..SkipSpace(s, e)]
    else ""
  }

  /** Text that ends in a tag group from index `e` on is the text before `e`, some whitespace and
      the rendering of the tags read there. */
  lemma TagGroupSplit(s: string, e: nat)
    requires e < |s| && TagsAt(s, e)
    ensures EndTags(s, e) != []
    ensures s == s[..e] + TagPart(s[e..SkipSpace(s, e)], EndTags(s, e))
  {
    var j := SkipSpace(s, e);
    TagGroupTags(s[j..]);
    Pieces(s, e, j);
  }

  /** Any text is the headline read from it, then whitespace and its tag group (if any). */
  lemma TextSplit(s: string)
    ensures var r := ReadText(s);
      s == r.0 + TagPart(TextGap(s), r.1)
  {
    var e := HeadlineEnd(s, 0);
    if e < |s| {
      TagGroupSplit(s, e);
    } else {
      assert s[..e] == s;
    }
  }

  /** No tag group reaching the end starts inside the headline read from any text. */
  lemma TextEarliest(s: string)
    ensures forall k :: 0 <= k < |ReadText(s).0| ==> !TagsAt(s, k)
  {
    HeadlineEndEarliest(s, 0);
  }

  /** Recoverable fields laid out after the stars and the space read back as themselves. */
  lemma FieldsRead(h: Headline, gap: string)
    requires Recoverable(h, gap)
    ensures ReadFields(h.level, KeywordText(h.todo) + (CookieText(h.priority) + (h.headline + TagPart(gap, h.tags)))) == h
  {
    SlotsRead(h.todo, h.priority, h.headline + TagPart(gap, h.tags));
    TextRead(h.headline, gap, h.tags);
  }

  /** A heading line parses to the fields read from what follows its stars and the space. */
  lemma ParseAfterStars(line: string, s: string)
    requires IsHeadingLine(line) && line[StarRun(line) + 1..] == s
    ensures ParseHeadline(line) == Some(ReadFields(StarRun(line), s))
  {
  }

  /** Parsing a line assembled from recoverable fields gives back those fields. */
  lemma ParseAssembled(h: Headline, gap: string)
    requires Recoverable(h, gap)
    ensures ParseHeadline(Assemble(h, gap)) == Some(h)
  {
    var mid := KeywordText(h.todo) + (CookieText(h.priority) + (h.headline + TagPart(gap, h.tags)));
    var line := Assemble(h, gap);
    assert line == Stars(h.level) + (" " + mid);
    StarsThenSpace(h.level, mid);
    ParseAfterStars(line, mid);
    FieldsRead(h, gap);
  }

  /** The text after the stars and the space is the fields read from it, laid out around the gap
      before the tag group; no tag group reaching the end starts inside the headline. */
  lemma FieldsSplit(n: nat, s: string)
    ensures var h := ReadFields(n, s);
      var t := AfterSlot(AfterSlot(s, h.todo), h.priority);
      AllSpace(TextGap(t)) &&
      s == KeywordText(h.todo) + (CookieText(h.priority) + (h.headline + TagPart(TextGap(t), h.tags))) &&
      forall k :: 0 <= k < |h.headline| ==> !TagsAt(h.headline + TagPart(TextGap(t), h.tags), k)
  {
    SlotsSplit(s);
    var h := ReadFields(n, s);
    TextSplit(AfterSlot(AfterSlot(s, h.todo), h.priority));
    TextEarliest(AfterSlot(AfterSlot(s, h.todo), h.priority));
  }

  /** Every parsed heading line is its fields laid out by `Assemble` around some whitespace gap,
      and no tag group reaching the end starts inside the headline (it is the shortest possible). */
  lemma ParseHeadlineParts(line: string)
    requires ParseHeadline(line).Some?
    ensures var h := ParseHeadline(line).value;
      exists gap :: AllSpace(gap) && line == Assemble(h, gap) &&
        forall k :: 0 <= k < |h.headline| ==> !TagsAt(h.headline + TagPart(gap, h.tags), k)
  {
    var s := line[StarRun(line) + 1..];
    var h := ReadFields(StarRun(line), s);
    StarsSplit(line);
    FieldsSplit(StarRun(line), s);
    var gap := TextGap(AfterSlot(AfterSlot(s, h.todo), h.priority));
    assert line == Assemble(h, gap);
  }
}
