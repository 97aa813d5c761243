/** The `Heading` object: seven fields, filled either with nulls or from
    `parseHeading`.  Callers may assign its fields afterwards. */
module OrgObjects {
  import opened OrgStrings
  import opened OrgHeadline
  import opened OrgParsers

  /** The fields of a heading built from nothing: `undefined`, `null` or `[]`. */
  const EmptyFields := HeadingFields(None, None, None, None, [], map[], [])

  class Heading {
    var level: Option<int>
    var priority: Option<string>
    var todo: Option<string>
    var headline: Option<string>
    var body: seq<string>
    var tags: seq<string>
    var drawers: map<string, seq<string>>

    /** The object's fields as a record. */
    function Fields(): HeadingFields
      reads this
    {
      HeadingFields(level, todo, priority, headline, tags, drawers, body)
    }

    /** `new Heading(lines)`, where `None` stands for a missing or `null`
        argument.  Without lines every field is null or empty; otherwise
        the fields are those `parseHeading` gives for the lines. */
    constructor(lines: Option<seq<string>>)
      ensures lines.None? || lines.value == [] ==> Fields() == EmptyFields
      ensures lines.Some? && lines.value != [] ==> Fields() == ParseHeading(lines.value)
      ensures lines.Some? && lines.value != [] && !IsHeadingLine(lines.value[0]) ==>
        level == Some(0) && body == lines.value
    {
      if lines.None? || |lines.value| == 0 {
        level := None;
        priority := None;
        todo := None;
        headline := None;
        body := [];
        tags := [];
        drawers := map[];
      } else {
        var heading := ParseHeading(lines.value);
        level := heading.level;
        priority := heading.priority;
        todo := heading.todo;
        headline := heading.headline;
        body := heading.body;
        tags := heading.tags;
        drawers := heading.drawers;
      }
    }
  }
}
