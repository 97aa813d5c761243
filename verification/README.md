# orglib in Dafny

A model of the core of orglib, a small JavaScript library that reads and
writes Emacs Org-mode outline files. It models:

- the heading-line grammar: the heading test, the metadata pattern, `parseTags` and `parseHeadline`;
- `parseHeading`, which turns the lines of one heading into a record;
- `parseDrawers`, the one-pass state machine that collects `:NAME:` … `:END:` drawers and can punch holes into the caller's array;
- `parseContents`, which cuts a text into one `Heading` object per heading;
- the `Heading` object and its constructor;
- `writeHeadingToString` and the joining step of `writeHeadingsToFile`.

On top of the model it proves that what the writer produces is read back by the parsers.

Modules, one per file:

| file | module | models |
|---|---|---|
| `strings.dfy` | `OrgStrings` | `Option`, JavaScript `\s`, `split`, `join`, the `\r\n` normalisation |
| `headline.dfy` | `OrgHeadline` | the patterns at lib/orgparsers.js lines 7 and 9, `parseTags`, `parseHeadline`, and the inverse layout `Assemble` |
| `drawers.dfy` | `OrgDrawers` | the drawer patterns (lines 10-11) and `parseDrawers` |
| `orgparsers.dfy` | `OrgParsers` | `parseHeading`, the grouping done by `parseContents`, and the document as a list of records |
| `orgobjects.dfy` | `OrgObjects` | the `Heading` class |
| `contents.dfy` | `OrgContents` | `parseContents` as a loop that builds `Heading` objects |
| `orgwriters.dfy` | `OrgWriters` | `writeHeadingToString` and the joined document text |
| `roundtrip.dfy` | `OrgRoundTrip` | reading back the written heading line, heading and document |
| `vectors.dfy` | `OrgVectors` | the library's own example lines and heading, worked out |

How the patterns are read:

- **Star run.** The star run is the maximal one, and it must be followed by a space.
- **Keyword and cookie.** The optional keyword group is taken whenever its text is present, and so is the cookie group. This holds because `.` is taken to match every character, so the rest of the pattern always matches.
- **Headline end.** The lazy headline ends at the earliest index from which whitespace and a one- or two-segment tag group reach the end of the line.
- **Whitespace.** `\s` is the full JavaScript whitespace set, not only space and tab.

`parseDrawers` is modelled in two layers:

- **Specification.** A left fold `Scan` of a `Step` function over the lines gives the drawers. A parallel fold `Holes` marks the positions that remove mode deletes.
- **Implementation.** A method loops over an `array<Option<string>>`. `None` is a JavaScript hole.

The scan does exactly what the loop at lib/orgparsers.js:131-147 does, including its less obvious cases:

- **A start inside an open drawer** (lines 132-135). It renames the drawer and keeps the lines collected so far.
- **An `:END:` with no open drawer** (lines 136-140). It still stores the (empty) collected lines under the last name, or under the key `"undefined"` when no drawer has started.
- **An unterminated drawer** (lines 141-145). It is never stored, and in remove mode its lines are deleted from the array.
- **The drawer name** (line 10). The name may be anything not *beginning* with `END`: `:ENDING:` opens no drawer.
- **Whitespace around the markers** (lines 10-11). Only leading whitespace is skipped; the closing colon must end the line.
- **`remove | false`** (line 126). This is a bitwise OR, so `remove` is converted to a 32-bit integer, and deletion happens only when that integer is non-zero, as for `true` or `1`. A truthy value such as `"yes"`, `0.5` or `[]` converts to 0 and deletes nothing. Here `remove` is a boolean (see Left out).

`parseContents` runs as a loop with one callback method per line (`OrgContents.Visit`), like the `_.each` callback. `OrgContents.CollectHeadings` holds the loop and the final push; `OrgContents.ParseContents` normalises and splits the text and calls it. They live in their own module because `Heading` calls `parseHeading` while `parseContents` builds `Heading`s: the JavaScript files require each other circularly, and Dafny modules cannot.

## Model

| member | source | states |
|---|---|---|
| OrgStrings.SkipSpace | lib/orgparsers.js:10-11 | the `\s*` prefix: the first index at or after `i` holding no whitespace; every skipped character is whitespace |
| OrgStrings.Split | lib/orgparsers.js:98 | `split` gives at least one piece, no piece holds the separator, and joining the pieces gives the input back |
| OrgStrings.SplitJoin | lib/orgparsers.js:23 | `split` undoes `join` on every non-empty list of separator-free parts |
| OrgStrings.JoinConcat | lib/orgwriters.js:19 | joining two non-empty lists is joining each and putting one separator between |
| OrgStrings.NormalizeNewlines | lib/orgparsers.js:98 | replacing `\r\n` by `\n` never lengthens the text, leaves a text without `\r` unchanged, and any change it makes shortens the text |
| OrgStrings.NormalizePair | lib/orgparsers.js:98 | a `\r\n` between two texts becomes one `\n` between their normalisations: every pair is replaced, each on its own |
| OrgStrings.NormalizeNoPair | lib/orgparsers.js:98 | a text without a `\r\n` pair is unchanged, so a carriage return not followed by a line feed is kept; with NormalizePair this fixes the result on every text |
| OrgHeadline.IsHeadingLine | lib/orgparsers.js:9 | a line passing the heading test starts with a star and has a second character; every line starting with a star and a space passes |
| OrgHeadline.StarRun | lib/orgparsers.js:7 | the level group is the maximal run of leading stars: all stars, and the next character (if any) is not a star |
| OrgHeadline.HeadingLineMeaning | lib/orgparsers.js:9 | a line passes the heading test exactly when it starts with one or more stars followed by a space (both directions) |
| OrgHeadline.ParseTags | lib/orgparsers.js:21-25 | dropping the outer characters and splitting on `:` gives at least one colon-free tag whose join is the inner text |
| OrgHeadline.TagsRoundTrip | lib/orgparsers.js:21-25 | parsing `":" + tags.join(":") + ":"` gives back every non-empty list of colon-free tags |
| OrgHeadline.TagGroupTags | lib/orgparsers.js:7 | a tag group the pattern accepts holds one or two non-empty colon-free tags and is exactly their rendering |
| OrgHeadline.ValidTagsFormGroup | lib/orgparsers.js:7 | one or two non-empty colon-free tags render to a group the pattern accepts |
| OrgHeadline.KeywordOf | lib/orgparsers.js:7 | the keyword group is captured exactly when the text starts with `TODO`, `NEXT` or `DONE` and a space, and the capture is that keyword, the text's first four characters |
| OrgHeadline.CookieOf | lib/orgparsers.js:7 | the cookie group is captured exactly when the text starts with `[#A]`, `[#B]` or `[#C]` and a space, and the capture is the letter inside the cookie |
| OrgHeadline.HeadlineEnd | lib/orgparsers.js:7 | the lazy headline ends before a tag group that reaches the end of the line, or at the end of the line |
| OrgHeadline.HeadlineEndEarliest | lib/orgparsers.js:7 | no tag group reaching the end of the line starts before the headline's end: the headline is the shortest possible |
| OrgHeadline.ReadFields | lib/orgparsers.js:77-81 | the captured fields: keyword from the three, cookie from A/B/C, at most two valid tags; an absent keyword or cookie means the text does not start with one |
| OrgHeadline.ParseHeadline | lib/orgparsers.js:73-86 | null exactly when the heading test fails; otherwise the level is the star run (at least 1) and the fields obey the pattern's vocabularies |
| OrgHeadline.StarsThenSpace | lib/orgparsers.js:9 | `n >= 1` stars and a space start a heading line whose star run is exactly `n` |
| OrgHeadline.SlotsRead | lib/orgparsers.js:7 | a keyword and cookie laid out before a text are read back, and the remaining text is that text |
| OrgHeadline.TextRead | lib/orgparsers.js:7 | a colon-free headline followed by whitespace and a tag group is split back into that headline and those tags |
| OrgHeadline.ParseAssembled | lib/orgparsers.js:73-86 | a heading line laid out from recoverable fields, with any whitespace before the tags, parses back to exactly those fields |
| OrgHeadline.ParseHeadlineParts | lib/orgparsers.js:73-86 | every parsed line is its fields laid out around some whitespace gap, with no tag group starting inside the headline |
| OrgDrawers.DrawerStart | lib/orgparsers.js:10 | a start line yields a name not beginning with `END`, enclosed in colons, the last ending the line |
| OrgDrawers.DrawerStartOf | lib/orgparsers.js:10 | every indented `:NAME:` line whose name does not begin with `END` opens a drawer of that name |
| OrgDrawers.DrawerStartShape | lib/orgparsers.js:10 | every start line is leading whitespace, a colon, the name and a colon |
| OrgDrawers.IsDrawerEnd | lib/orgparsers.js:11 | an end line is whitespace followed by exactly `:END:` |
| OrgDrawers.NoClosingColon | lib/orgparsers.js:10-11 | a line not ending with a colon neither opens nor closes a drawer |
| OrgDrawers.DrawerEndOf | lib/orgparsers.js:11 | every indented `:END:` line closes a drawer and opens none |
| OrgDrawers.EndIsNotStart | lib/orgparsers.js:10-11 | no end line is a start line, so the start branch never shadows the end branch |
| OrgDrawers.Step | lib/orgparsers.js:132-145 | after one line a drawer is open exactly when the line opened one, or one was open and the line does not close it; only an end line that opens nothing changes the stored drawers |
| OrgDrawers.ScanKeepsNames | lib/orgparsers.js:131-147 | the scan never removes a stored name: later lines only add or overwrite entries |
| OrgDrawers.Drawers | lib/orgparsers.js:125-149 | a body without an end line has no drawers |
| OrgDrawers.DrawerContents | lib/orgparsers.js:138-144 | every stored line is a line of the body, and one that neither opens nor closes a drawer |
| OrgDrawers.PunchedFrom | lib/orgparsers.js:135-144 | remove mode keeps the array's length and leaves each position either holed or unchanged |
| OrgDrawers.ScanInert | lib/orgparsers.js:141-145 | ordinary lines are appended to an open drawer (and deleted) or ignored outside one |
| OrgDrawers.ScanBlock | lib/orgparsers.js:132-140 | a start line, ordinary lines and an end line store exactly those lines, without the delimiters, under the start's name |
| OrgDrawers.HolesBlock | lib/orgparsers.js:135-144 | remove mode deletes the start line, every content line and the end line of a drawer |
| OrgDrawers.ScanPieces | lib/orgparsers.js:131-147 | a body of loose lines and complete drawers stores each drawer's content in order, and nothing from the loose lines |
| OrgDrawers.DrawersOfPieces | lib/orgparsers.js:125-149 | the map holds the drawers' contents and no loose line; remove mode deletes exactly the drawer positions |
| OrgDrawers.StoredUntouched | lib/orgparsers.js:138 | a key no drawer uses keeps its entry or its absence: lines outside drawers reach no entry |
| OrgDrawers.StoredLast | lib/orgparsers.js:138 | a later drawer with the same name overwrites an earlier one: the last one's content is stored |
| OrgDrawers.ClosedIsEmpty | lib/orgparsers.js:137-139 | whenever no drawer is open, no lines are being collected |
| OrgDrawers.StrayEnd | lib/orgparsers.js:136-140 | an end line with no open drawer stores the empty list under the last name (or `"undefined"`) |
| OrgDrawers.Rename | lib/orgparsers.js:132-134 | a start line inside an open drawer only renames it: the lines collected so far are kept |
| OrgDrawers.Unterminated | lib/orgparsers.js:141-148 | while no end line comes the stored drawers do not change, so a drawer never closed is never stored; an open drawer stays open and every later line is marked for deletion |
| OrgDrawers.Visit | lib/orgparsers.js:131-147 | the per-line callback takes one step of the state machine and deletes the line exactly when remove mode consumes it |
| OrgDrawers.ParseDrawers | lib/orgparsers.js:125-149 | the result is the drawers of the body; with `remove` the array becomes the body with exactly the consumed positions holed, otherwise it is unchanged |
| OrgParsers.ParseHeading | lib/orgparsers.js:36-61 | a group starting with a heading line gives that line's fields, with keyword, cookie, headline and tags exactly those `parseHeadline` reads from it, the other lines unchanged as body, and the body's drawers; any other group is a level-0 preamble whose body is every line |
| OrgParsers.GroupsFrom | lib/orgparsers.js:101-112 | from collected lines and lines still to read, the groups are non-empty, no more than the lines, and none only when there are no lines at all |
| OrgParsers.Groups | lib/orgparsers.js:97-112 | the groups of a list of lines are non-empty, no more than the lines, and there is at least one when there is a line |
| OrgParsers.GroupsSegment | lib/orgparsers.js:101-112 | the groups concatenate back to the lines, none is empty, each after the first starts with a heading line and no other line is one |
| OrgParsers.Absorb | lib/orgparsers.js:108 | lines that are no heading lines join the group being collected |
| OrgParsers.GroupsOfSegments | lib/orgparsers.js:101-112 | the grouping is unique: groups cut exactly at heading lines are what the grouping forms from their concatenation |
| OrgParsers.Lines | lib/orgparsers.js:98 | a text always yields at least one line, and no line holds a line feed |
| OrgParsers.ParseDocument | lib/orgparsers.js:97-114 | one record per group, at least one even for the empty text |
| OrgParsers.DocumentHeadings | lib/orgparsers.js:97-114 | only the first record of a document can be a level-0 preamble |
| OrgObjects.Heading.constructor | lib/orgobjects.js:19-38 | no lines, null or `[]` give the all-null empty heading; other lines give the fields of `parseHeading`, so a non-heading first line gives level 0 and every line as body |
| OrgContents.GroupsStep | lib/orgparsers.js:101-109 | one line read by the loop leaves the closed groups plus the groups still to come unchanged |
| OrgContents.Push | lib/orgparsers.js:104 | a new `Heading` built from the collected lines is appended, fresh, and holds their parsed fields |
| OrgContents.Visit | lib/orgparsers.js:101-109 | a heading line after collected lines closes them into a fresh `Heading` appended after the unchanged earlier objects; every line then joins the collection |
| OrgContents.LastGroup | lib/orgparsers.js:110-112 | once every line is read, the groups are the closed ones plus the collected lines when there are any |
| OrgContents.CollectHeadings | lib/orgparsers.js:101-112 | the loop and the final push build one fresh `Heading` per group of the lines, in order, no two the same object, each holding that group's parsed fields |
| OrgContents.BuiltDocument | lib/orgparsers.js:97-114 | objects built from the groups of a text hold exactly the records of the parsed document |
| OrgContents.ParseContents | lib/orgparsers.js:97-114 | one fresh `Heading` per group of the normalised lines, in order, no two the same object, each holding the fields of the parsed document |
| OrgWriters.HeadingLineLayout | lib/orgwriters.js:37-41 | the heading line is the stars, then the present fields each introduced by a space, or a tab for the tags |
| OrgWriters.WriteHeadingToString | lib/orgwriters.js:33-46 | without a positive level the output is only the joined body; with one, the character after the stars is a space, a tab or a line feed |
| OrgWriters.StarRunOfStars | lib/orgwriters.js:37 | `Array(n + 1).join('*')` followed by a non-star is read as a star run of exactly `n` |
| OrgWriters.WrittenStars | lib/orgwriters.js:36-37 | with a positive level the output starts with exactly `level` stars |
| OrgWriters.WrittenLines | lib/orgwriters.js:42-44 | with a positive level and a non-empty body the output is the heading line and the body lines joined by line feeds |
| OrgWriters.BodylessTrailingNewline | lib/orgwriters.js:42-44 | a body-less heading ends with a line feed, so it splits into its heading line and an empty line |
| OrgWriters.WriteHeadings | lib/orgwriters.js:16-19 | no headings give the empty text, and one heading gives exactly its written string |
| OrgWriters.WriteHeadingsAppend | lib/orgwriters.js:16-19 | one more heading adds one line feed and its string at the end of the document |
| OrgRoundTrip.WrittenIsAssembled | lib/orgwriters.js:37-41 | the writer lays a writable heading line out as the parser's inverse layout, with a tab before the tags |
| OrgRoundTrip.ReadWrittenLine | lib/orgwriters.js:36-41 | a written heading line passes the heading test and parses back to level, keyword, cookie, headline and tags |
| OrgRoundTrip.ReadWrittenHeading | lib/orgparsers.js:36-49 | `parseHeading` of a written heading line and its body gives back the heading, drawers included; a heading with no body is the one-line group |
| OrgRoundTrip.HeadingLineOneLine | lib/orgwriters.js:37-42 | a heading line written from single-line fields holds no line feed and no carriage return |
| OrgRoundTrip.JoinGroups | lib/orgwriters.js:19 | joining the joined groups is joining the concatenated groups |
| OrgRoundTrip.WrittenGroupReads | lib/orgwriters.js:33-46 | each heading is written as its group of lines, and `parseHeading` reads that group back as the heading |
| OrgRoundTrip.ReadJoinedLines | lib/orgparsers.js:98 | a text joined from single lines is read back as those lines |
| OrgRoundTrip.WrittenDocument | lib/orgwriters.js:16-19 | the document text is the headings' groups joined by line feeds; the groups are cut exactly at heading lines |
| OrgRoundTrip.DocumentRoundTrip | lib/orgwriters.js:13-24 | writing a list of readable headings (optionally after a preamble) and parsing the text gives back the same records |
| OrgVectors.FullHeadline | spec/orgparsers-spec.js:25-34 | `*** NEXT [#B] Test Headline :tag1:tag2:` reads as level 3, NEXT, B, `Test Headline`, two tags |
| OrgVectors.PriorityOnly | spec/orgparsers-spec.js:65-74 | `*** [#B] Test Headline` reads with no keyword, cookie B and no tags |
| OrgVectors.TagsOnly | spec/orgparsers-spec.js:85-94 | `*** Test Headline :tag1:tag2:` reads with neither keyword nor cookie |
| OrgVectors.Heading1Line | spec/orgwriters-spec.js:8-18 | the example heading's line is `** NEXT [#B] A 2nd level heading`, a tab and `:tag1:tag2:` |
| OrgVectors.WrittenHeading | spec/orgwriters-spec.js:21-28 | the example heading is written as its line and its two body lines joined by line feeds |
| OrgVectors.LoneHeading | lib/orgparsers.js:37-49 | a group of one heading line gives that line's fields, no drawers and an empty body |
| OrgVectors.LoneFullHeading | spec/orgparsers-spec.js:131-142 | the group of only `*** NEXT [#B] Test Headline :tag1:tag2:` gives that heading with no drawers and no body |
| OrgVectors.OneDrawerThenLoose | spec/orgparsers-spec.js:185-196 | a drawer of two lines then two loose lines: remove mode holes the four drawer lines and keeps the rest; the map holds the two content lines |
| OrgVectors.RemovedDrawer | spec/orgparsers-spec.js:185-196 | the tab-indented PROPERTIES body: four holes, then `Some other body lines of text` and `that makes up the body`; the map holds the date and prop2 lines |

## Left out

- Reading and writing files: `fs.writeFile` and the Bluebird promise of `writeHeadingsToFile` are not modelled. The document text it would write is `OrgWriters.WriteHeadings`.
- Buffer input to `parseContents`: the `toString()` call is not modelled, and the input is a string.
- Regular-expression semantics beyond these grammars. JavaScript `.` stops at `\n`, `\r`, U+2028 and U+2029, but the model lets it match every character. Lines from `parseContents` hold no `\n`, so the two differ only on lines holding a lone `\r`, U+2028 or U+2029.
- OrgHeadline.ParseHeadline: the `\s` before the tag group is the full JavaScript whitespace set. Unicode case folding and normalisation play no part.
- JavaScript `undefined` and `null` are both `None`.
- Object key order in the drawers map is not modelled; it is a Dafny `map`.
- The special `__proto__` key of JavaScript objects is not modelled. A drawer with that name is stored like any other.
- OrgParsers.ParseHeading requires a non-empty list. With none, `lines[0]` is `undefined` and `parseHeadline` throws on `undefined.match`.
- OrgDrawers.ParseDrawers requires an array without holes. The callback calls `line.match` on every element and would throw on a hole.
- `remove | false` is taken as a plain boolean. The integer conversion of other JavaScript values (strings, fractions, arrays, objects) is not modelled: `OrgDrawers.ParseDrawers` takes `remove: bool`, matching `true` and `false`.
- lodash `_.each` becomes `while` loops with one callback method per element. The circular `require` between the object and parser files becomes a separate module for `parseContents`.
- Writer inputs that are not strings or arrays are not modelled. Examples are a non-string `todo`, `tags` set to null, or a body with holes (which `join` renders as empty strings). The fields are typed.
- A level so large that `Array(level + 1)` throws is not modelled; levels are unbounded integers.
- OrgRoundTrip.DocumentRoundTrip holds only under stated conditions:
  - headings have non-empty headlines and bodies;
  - lines hold no line break;
  - body lines are not heading lines;
  - drawers are those of the body;
  - headline fields survive the inverse layout.

  Outside these the write-then-read is not the identity:
  - a body-less heading reads back with body `[""]`;
  - an empty headline drops the space after the keyword, which then reads as headline text.
- Only the remove-mode drawer example is worked out concretely. The two-drawer example with a LOGBOOK is covered by the general drawer lemmas only.
- The only-headline `parseHeading` example is worked out on the full example heading line rather than on its own line. Its 52-character literal is too costly for the solver.
- Aliasing of the preamble's body is not modelled. For a group that does not start with a heading line, `parseHeading` returns the caller's own array as `body` (lib/orgparsers.js:58), and the `Heading` object keeps it (lib/orgobjects.js:19-38). In JavaScript a later change to that array shows in the heading. Here `body` is a sequence value, so no such sharing exists.
- The test harness itself (rewire, mock-fs, Jasmine) is not part of this model.
