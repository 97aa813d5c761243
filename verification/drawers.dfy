/** Drawers in a heading's body: a line `:NAME:` (after optional whitespace)
    opens a drawer, a line `:END:` closes it, and the lines in between are
    its content.  `parseDrawers` collects them into a map from name to
    content lines and, when asked to, deletes the drawer lines from the
    body array, leaving holes. */
module OrgDrawers {
  import opened OrgStrings

  /** The lookahead `(?!END)`: the text begins with the letters END. */
  predicate StartsWithEnd(s: string)
  {
    |s| >= 3 && s[..3] == "END"
  }

  /** The drawer-start pattern: optional whitespace, a colon, a name that
      does not begin with END, and a closing colon at the very end of the
      line.  The result is the name, which may be empty (`::`). */
  function DrawerStart(line: string): (r: Option<string>)
    ensures r.Some? ==> !StartsWithEnd(r.value)
    ensures r.Some? ==> |r.value| + 2 <= |line| && line[|line| - 1] == ':'
  {
    var j := SkipSpace(line, 0);
    if j + 2 <= |line| && line[j] == ':' && line[|line| - 1] == ':' && !StartsWithEnd(line[j + 1..]) then
      assert line[j + 1..|line| - 1] == line[j + 1..][..|line| - 1 - (j + 1)];
      Some(line[j + 1..|line| - 1])
    else None
  }

  /** The drawer-end pattern: optional whitespace, then exactly `:END:`. */
  predicate IsDrawerEnd(line: string)
    ensures IsDrawerEnd(line) ==>
      |line| >= 5 && AllSpace(line[..|line| - 5]) && line[|line| - 5..] == ":END:"
  {
    SkippedSpace(line, 0);
    line[SkipSpace(line, 0)..] == ":END:"
  }

  /** A line that neither opens nor closes a drawer. */
  predicate Inert(line: string)
  {
    DrawerStart(line).None? && !IsDrawerEnd(line)
  }

  /** Whitespace ahead of a non-space character is skipped exactly. */
  lemma {:induction false} SkipLeading(ws: string, rest: string, i: nat)
    requires AllSpace(ws) && i <= |ws|
    requires rest != [] && !IsSpace(rest[0])
    ensures SkipSpace(ws + rest, i) == |ws|
    decreases |ws| - i
  {
    var s := ws + rest;
    if i < |ws| {
      assert s[i] == ws[i];
      SkipLeading(ws, rest, i + 1);
    } else {
      assert s[i] == rest[0];
    }
  }

  /** Every indented `:NAME:` line whose name does not begin with END opens a drawer of that name. */
  lemma DrawerStartOf(ws: string, name: string)
    requires AllSpace(ws) && !StartsWithEnd(name)
    ensures DrawerStart(ws + ":" + name + ":") == Some(name)
  {
    var line := ws + ":" + name + ":";
    SkipLeading(ws, ":" + name + ":", 0);
    assert line[|ws|] == ':';
    assert line[|ws| + 1..] == name + ":";
    assert line[|ws| + 1..|line| - 1] == name;
    assert !StartsWithEnd(name + ":") by {
      if |name| >= 3 {
        assert (name + ":")[..3] == name[..3];
      } else {
        assert (name + ":")[|name|] == ':';
      }
    }
  }

  /** Conversely, a line that opens a drawer is whitespace, a colon, the name and a colon. */
  lemma DrawerStartShape(line: string)
    requires DrawerStart(line).Some?
    ensures var ws := line[..SkipSpace(line, 0)];
      AllSpace(ws) && line == ws + ":" + DrawerStart(line).value + ":"
  {
    var j := SkipSpace(line, 0);
    SkippedSpace(line, 0);
    assert DrawerStart(line).value == line[j + 1..|line| - 1];
    Enclosed(line, j);
  }

  /** A text with a colon at `j` and at its end is its prefix, a colon, the
      text between and a colon. */
  lemma Enclosed(s: string, j: nat)
    requires j + 2 <= |s| && s[j] == ':' && s[|s| - 1] == ':'
    ensures s == s[..j] + ":" + s[j + 1..|s| - 1] + ":"
  {
    var n := |s| - 1;
    Pieces(s, j, n);
    assert s[j..n] == ":" + s[j + 1..n];
    assert s[n..] == ":";
  }

  /** Every indented `:END:` line closes a drawer and does not open one. */
  lemma DrawerEndOf(ws: string)
    requires AllSpace(ws)
    ensures IsDrawerEnd(ws + ":END:")
    ensures DrawerStart(ws + ":END:").None?
  {
    var line := ws + ":END:";
    SkipLeading(ws, ":END:", 0);
    assert line[|ws|..] == ":END:";
    assert line[|ws| + 1..][..3] == "END";
  }

  /** A line that does not end with a colon neither opens nor closes a drawer. */
  lemma NoClosingColon(line: string)
    requires line != [] && line[|line| - 1] != ':'
    ensures Inert(line)
  {
  }

  /** A line never both opens and closes a drawer (`:ENDING:` does neither). */
  lemma EndIsNotStart(line: string)
    requires IsDrawerEnd(line)
    ensures DrawerStart(line).None?
  {
    var j := SkipSpace(line, 0);
    assert line[j..] == ":END:";
    assert line[j + 1..][..3] == "END" by {
      assert line[j + 1..] == line[j..][1..];
    }
  }

  /** The map key a drawer is stored under: its name, or "undefined" when
      an `:END:` is met before any drawer was opened. */
  function Key(name: Option<string>): string
  {
    if name.Some? then name.value else "undefined"
  }

  /** The scanner's variables between two lines: whether a drawer is open,
      the last name seen, the content collected so far, and the drawers
      stored so far. */
  datatype ScanState = ScanState(found: bool, name: Option<string>, acc: seq<string>, drawers: map<string, seq<string>>)

  const Initial := ScanState(false, None, [], map[])

  /** One line of the scan.  A start line (re)names the open drawer and keeps
      what it has collected; an end line stores the collected lines under
      the current name and starts afresh; any other line is collected when a
      drawer is open. */
  function Step(st: ScanState, line: string): (r: ScanState)
    ensures r.found <==> DrawerStart(line).Some? || (st.found && !IsDrawerEnd(line))
    ensures DrawerStart(line).Some? || !IsDrawerEnd(line) ==> r.drawers == st.drawers
  {
    var start := DrawerStart(line);
    if start.Some? then st.(found := true, name := start)
    else if IsDrawerEnd(line) then ScanState(false, st.name, [], st.drawers[Key(st.name) := st.acc])
    else if st.found then st.(acc := st.acc + [line])
    else st
  }

  /** The scan over `lines`, starting from `st`. */
  function Scan(st: ScanState, lines: seq<string>): ScanState
    decreases |lines|
  {
    if |lines| == 0 then st else Scan(Step(st, lines[0]), lines[1..])
  }

  /** A stored drawer is never removed: later lines can only add names or
      replace contents. */
  lemma {:induction false} ScanKeepsNames(st: ScanState, lines: seq<string>)
    ensures st.drawers.Keys <= Scan(st, lines).drawers.Keys
    decreases |lines|
  {
    if |lines| > 0 {
      ScanKeepsNames(Step(st, lines[0]), lines[1..]);
    }
  }

  /** The map `parseDrawers` returns for a body. */
  function Drawers(lines: seq<string>): (r: map<string, seq<string>>)
    ensures (forall k :: 0 <= k < |lines| ==> !IsDrawerEnd(lines[k])) ==> r == map[]
  {
    if forall k :: 0 <= k < |lines| ==> !IsDrawerEnd(lines[k]) then
      Unterminated(Initial, lines);
      Scan(Initial, lines).drawers
    else Scan(Initial, lines).drawers
  }

  /** A drawer's content lines are lines of the body, and none of them opens
      or closes a drawer. */
  lemma DrawerContents(lines: seq<string>)
    ensures var r := Drawers(lines);
      forall key :: key in r ==> forall j :: 0 <= j < |r[key]| ==> r[key][j] in lines && Inert(r[key][j])
  {
    ScanFromPool(Initial, lines, lines);
  }

  /** Every line collected or stored in `st` is one of `pool` and neither
      opens nor closes a drawer. */
  predicate FromPool(st: ScanState, pool: seq<string>)
  {
    (forall j :: 0 <= j < |st.acc| ==> st.acc[j] in pool && Inert(st.acc[j])) &&
    forall key :: key in st.drawers ==>
      forall j :: 0 <= j < |st.drawers[key]| ==> st.drawers[key][j] in pool && Inert(st.drawers[key][j])
  }

  /** Scanning lines of the pool collects and stores only lines of the pool,
      and never a start or end line. */
  lemma {:induction false} ScanFromPool(st: ScanState, lines: seq<string>, pool: seq<string>)
    requires FromPool(st, pool)
    requires forall k :: 0 <= k < |lines| ==> lines[k] in pool
    ensures FromPool(Scan(st, lines), pool)
    decreases |lines|
  {
    if |lines| > 0 {
      StepFromPool(st, lines[0], pool);
      ScanFromPool(Step(st, lines[0]), lines[1..], pool);
    }
  }

  /** One step keeps the collected and stored lines within the pool. */
  lemma StepFromPool(st: ScanState, line: string, pool: seq<string>)
    requires FromPool(st, pool) && line in pool
    ensures FromPool(Step(st, line), pool)
  {
    var next := Step(st, line);
    if DrawerStart(line).None? {
      if IsDrawerEnd(line) {
        var key := Key(st.name);
        forall k | k in next.drawers
          ensures forall j :: 0 <= j < |next.drawers[k]| ==> next.drawers[k][j] in pool && Inert(next.drawers[k][j])
        {
          if k == key {
            assert next.drawers[k] == st.acc;
          } else {
            assert next.drawers[k] == st.drawers[k];
          }
        }
      } else if st.found {
        assert next.acc == st.acc + [line];
        assert Inert(line);
      }
    }
  }

  /** Whether the line met in state `st` is deleted in remove mode: start
      and end lines, and every line while a drawer is open. */
  predicate Deletes(st: ScanState, line: string)
  {
    DrawerStart(line).Some? || IsDrawerEnd(line) || st.found
  }

  /** For each of `lines`, scanned from `st`, whether remove mode deletes it. */
  function Holes(st: ScanState, lines: seq<string>): (r: seq<bool>)
    ensures |r| == |lines|
    decreases |lines|
  {
    if |lines| == 0 then [] else [Deletes(st, lines[0])] + Holes(Step(st, lines[0]), lines[1..])
  }

  /** The cells of `lines`, scanned from `st`, after remove mode: a hole
      (`None`) where a line was deleted, the line itself elsewhere. */
  function PunchedFrom(st: ScanState, lines: seq<string>): (r: seq<Option<string>>)
    ensures |r| == |lines|
    ensures forall k :: 0 <= k < |r| ==> r[k] == None || r[k] == Some(lines[k])
  {
    var holes := Holes(st, lines);
    seq(|lines|, k requires 0 <= k < |lines| => if holes[k] then None else Some(lines[k]))
  }

  function Punched(lines: seq<string>): seq<Option<string>>
  {
    PunchedFrom(Initial, lines)
  }

  /** Scanning from line `i` on is one step and then scanning from line `i + 1` on. */
  lemma ScanNext(st: ScanState, lines: seq<string>, i: nat)
    requires i < |lines|
    ensures Scan(st, lines[i..]) == Scan(Step(st, lines[i]), lines[i + 1..])
    ensures Holes(st, lines[i..]) == [Deletes(st, lines[i])] + Holes(Step(st, lines[i]), lines[i + 1..])
  {
    assert lines[i..][1..] == lines[i + 1..];
  }

  /** A suffix of a sequence is its first element followed by the next suffix. */
  lemma HeadTail<T>(s: seq<T>, i: nat)
    requires i < |s|
    ensures s[i..] == [s[i]] + s[i + 1..]
  {
  }

  /** The strings held by an array without holes. */
  function Present(cells: seq<Option<string>>): seq<string>
    requires forall k :: 0 <= k < |cells| ==> cells[k].Some?
  {
    seq(|cells|, k requires 0 <= k < |cells| => cells[k].value)
  }

  /** Scanning a concatenation is scanning its first part, then its second. */
  lemma {:induction false} ScanAppend(st: ScanState, a: seq<string>, b: seq<string>)
    ensures Scan(st, a + b) == Scan(Scan(st, a), b)
    ensures Holes(st, a + b) == Holes(st, a) + Holes(Scan(st, a), b)
    decreases |a|
  {
    if |a| == 0 {
      assert a + b == b;
    } else {
      assert (a + b)[0] == a[0];
      assert (a + b)[1..] == a[1..] + b;
      ScanAppend(Step(st, a[0]), a[1..], b);
    }
  }

  /** Lines that neither open nor close a drawer are collected, and deleted,
      exactly when a drawer is open; nothing is stored. */
  lemma {:induction false} ScanInert(st: ScanState, c: seq<string>)
    requires forall k :: 0 <= k < |c| ==> Inert(c[k])
    ensures Scan(st, c) == if st.found then st.(acc := st.acc + c) else st
    ensures forall k :: 0 <= k < |c| ==> Holes(st, c)[k] == st.found
    decreases |c|
  {
    if |c| > 0 {
      ScanInert(Step(st, c[0]), c[1..]);
      if st.found {
        assert st.acc + c == st.acc + [c[0]] + c[1..];
      }
    }
  }

  /** A drawer: its start line, its content and its end line. */
  predicate IsBlock(open: string, content: seq<string>, close: string)
  {
    DrawerStart(open).Some? && IsDrawerEnd(close) && forall k :: 0 <= k < |content| ==> Inert(content[k])
  }

  /** Scanning a single line is one step. */
  lemma ScanOne(st: ScanState, line: string)
    ensures Scan(st, [line]) == Step(st, line)
    ensures Holes(st, [line]) == [Deletes(st, line)]
  {
    assert [line][1..] == [];
  }

  /** Outside any drawer, a drawer stores its content under its name and
      leaves no drawer open. */
  lemma ScanBlock(st: ScanState, open: string, content: seq<string>, close: string)
    requires !st.found && st.acc == []
    requires IsBlock(open, content, close)
    ensures Scan(st, [open] + content + [close])
         == ScanState(false, DrawerStart(open), [], st.drawers[DrawerStart(open).value := content])
  {
    var inside := Step(st, open);
    ScanOne(st, open);
    assert [open] + content + [close] == [open] + (content + [close]);
    ScanAppend(st, [open], content + [close]);
    ScanAppend(inside, content, [close]);
    ScanInert(inside, content);
    assert [] + content == content;
    EndIsNotStart(close);
    ScanOne(Scan(inside, content), close);
  }

  /** In remove mode every line of a drawer is deleted. */
  lemma HolesBlock(st: ScanState, open: string, content: seq<string>, close: string)
    requires IsBlock(open, content, close)
    ensures forall k :: 0 <= k < |content| + 2 ==> Holes(st, [open] + content + [close])[k]
  {
    var inside := Step(st, open);
    ScanOne(st, open);
    assert [open] + content + [close] == [open] + (content + [close]);
    ScanAppend(st, [open], content + [close]);
    ScanAppend(inside, content, [close]);
    ScanInert(inside, content);
    ScanOne(Scan(inside, content), close);
  }

  /** A body seen as a sequence of pieces: a line outside every drawer, or a
      whole drawer. */
  datatype Piece = Loose(line: string) | Block(open: string, content: seq<string>, close: string)

  predicate WellFormed(p: Piece)
  {
    match p
    case Loose(line) => Inert(line)
    case Block(open, content, close) => IsBlock(open, content, close)
  }

  function PieceLines(p: Piece): seq<string>
  {
    match p
    case Loose(line) => [line]
    case Block(open, content, close) => [open] + content + [close]
  }

  function Flatten(ps: seq<Piece>): seq<string>
    decreases |ps|
  {
    if |ps| == 0 then [] else PieceLines(ps[0]) + Flatten(ps[1..])
  }

  /** The reference reading of a body: each drawer, in order, stores its
      content under its name, a later drawer replacing an earlier one of the
      same name. */
  function Stored(m: map<string, seq<string>>, ps: seq<Piece>): map<string, seq<string>>
    decreases |ps|
  {
    if |ps| == 0 then m
    else
      var p := ps[0];
      Stored(if p.Block? then m[Key(DrawerStart(p.open)) := p.content] else m, ps[1..])
  }

  /** The map key a block is stored under. */
  function BlockKey(p: Piece): string
    requires p.Block?
  {
    Key(DrawerStart(p.open))
  }

  /** A key that no block uses keeps its entry, or its absence. */
  lemma {:induction false} StoredUntouched(m: map<string, seq<string>>, ps: seq<Piece>, key: string)
    requires forall i :: 0 <= i < |ps| && ps[i].Block? ==> BlockKey(ps[i]) != key
    ensures key in Stored(m, ps) <==> key in m
    ensures key in m ==> Stored(m, ps)[key] == m[key]
    decreases |ps|
  {
    if |ps| > 0 {
      var p := ps[0];
      forall i | 0 <= i < |ps[1..]| && ps[1..][i].Block?
        ensures BlockKey(ps[1..][i]) != key
      {
        assert ps[1..][i] == ps[i + 1];
      }
      StoredUntouched(if p.Block? then m[BlockKey(p) := p.content] else m, ps[1..], key);
    }
  }

  /** A block's content is what its key holds in the end, when no later block
      uses the same key: a later drawer of the same name overwrites an earlier one. */
  lemma {:induction false} StoredLast(m: map<string, seq<string>>, ps: seq<Piece>, i: nat)
    requires i < |ps| && ps[i].Block?
    requires forall j :: i < j < |ps| && ps[j].Block? ==> BlockKey(ps[j]) != BlockKey(ps[i])
    ensures BlockKey(ps[i]) in Stored(m, ps)
    ensures Stored(m, ps)[BlockKey(ps[i])] == ps[i].content
    decreases |ps|
  {
    var p := ps[0];
    var m' := if p.Block? then m[BlockKey(p) := p.content] else m;
    if i == 0 {
      forall j | 0 <= j < |ps[1..]| && ps[1..][j].Block?
        ensures BlockKey(ps[1..][j]) != BlockKey(p)
      {
        assert ps[1..][j] == ps[j + 1];
      }
      StoredUntouched(m', ps[1..], BlockKey(p));
    } else {
      assert ps[1..][i - 1] == ps[i];
      forall j | i - 1 < j < |ps[1..]| && ps[1..][j].Block?
        ensures BlockKey(ps[1..][j]) != BlockKey(ps[i])
      {
        assert ps[1..][j] == ps[j + 1];
      }
      StoredLast(m', ps[1..], i - 1);
    }
  }

  /** The reference deletions: every line of a drawer, no loose line. */
  function PieceHoles(ps: seq<Piece>): (r: seq<bool>)
    ensures |r| == |Flatten(ps)|
    decreases |ps|
  {
    if |ps| == 0 then []
    else
      var here := if ps[0].Loose? then [false] else seq(|ps[0].content| + 2, _ => true);
      here + PieceHoles(ps[1..])
  }

  /** On a body made of loose lines and whole drawers, the scan agrees with
      the reference reading: the stored drawers are `Stored`, the deleted
      lines are exactly the drawer lines, and no drawer is left open. */
  lemma {:induction false} ScanPieces(st: ScanState, ps: seq<Piece>)
    requires !st.found && st.acc == []
    requires forall i :: 0 <= i < |ps| ==> WellFormed(ps[i])
    ensures var r := Scan(st, Flatten(ps));
      !r.found && r.acc == [] && r.drawers == Stored(st.drawers, ps)
    ensures Holes(st, Flatten(ps)) == PieceHoles(ps)
    decreases |ps|
  {
    if |ps| > 0 {
      var p := ps[0];
      var lines := PieceLines(p);
      ScanAppend(st, lines, Flatten(ps[1..]));
      var mid := Scan(st, lines);
      if p.Block? {
        ScanBlock(st, p.open, p.content, p.close);
        HolesBlock(st, p.open, p.content, p.close);
        var here := seq(|p.content| + 2, _ => true);
        assert Holes(st, lines) == here;
      } else {
        assert lines == [p.line] && lines[1..] == [];
      }
      ScanPieces(mid, ps[1..]);
    }
  }

  /** For a body of loose lines and whole drawers, `parseDrawers` returns the
      reference map and, in remove mode, leaves holes exactly at drawer lines. */
  lemma DrawersOfPieces(ps: seq<Piece>)
    requires forall i :: 0 <= i < |ps| ==> WellFormed(ps[i])
    ensures Drawers(Flatten(ps)) == Stored(map[], ps)
    ensures var lines := Flatten(ps);
      forall k :: 0 <= k < |lines| ==> Punched(lines)[k] == if PieceHoles(ps)[k] then None else Some(lines[k])
  {
    ScanPieces(Initial, ps);
  }

  /** Outside a drawer nothing has been collected. */
  lemma {:induction false} ClosedIsEmpty(st: ScanState, lines: seq<string>)
    requires st.found || st.acc == []
    ensures var r := Scan(st, lines); r.found || r.acc == []
    decreases |lines|
  {
    if |lines| > 0 {
      ClosedIsEmpty(Step(st, lines[0]), lines[1..]);
    }
  }

  /** An `:END:` met outside any drawer stores an empty list under the last
      name seen, or under "undefined" when no drawer was ever opened. */
  lemma StrayEnd(lines: seq<string>, close: string)
    requires !Scan(Initial, lines).found
    requires IsDrawerEnd(close)
    ensures Drawers(lines + [close]) == Drawers(lines)[Key(Scan(Initial, lines).name) := []]
  {
    ScanAppend(Initial, lines, [close]);
    ClosedIsEmpty(Initial, lines);
    EndIsNotStart(close);
  }

  /** A start line inside an open drawer renames it and keeps what it has collected. */
  lemma Rename(lines: seq<string>, open: string)
    requires Scan(Initial, lines).found
    requires DrawerStart(open).Some?
    ensures Scan(Initial, lines + [open]) == Scan(Initial, lines).(name := DrawerStart(open))
  {
    ScanAppend(Initial, lines, [open]);
  }

  /** Without an `:END:` nothing more is stored, and once a drawer is open
      every further line is deleted in remove mode: an unterminated drawer
      is dropped from the map but removed from the body. */
  lemma {:induction false} Unterminated(st: ScanState, rest: seq<string>)
    requires forall k :: 0 <= k < |rest| ==> !IsDrawerEnd(rest[k])
    ensures Scan(st, rest).drawers == st.drawers
    ensures st.found ==> Scan(st, rest).found && forall k :: 0 <= k < |rest| ==> Holes(st, rest)[k]
    decreases |rest|
  {
    if |rest| > 0 {
      Unterminated(Step(st, rest[0]), rest[1..]);
    }
  }

  /** The callback `parseDrawers` hands to `_.each`, applied to the line at
      `index`.  The callback's closure variables (`foundDrawer`,
      `drawerName`, `drawerlines`, `drawers`) travel in `st`.  In remove
      mode it deletes the line from the array when the line belongs to a
      drawer. */
  method Visit(st: ScanState, line: string, index: nat, collection: array<Option<string>>, remove: bool)
    returns (next: ScanState)
    requires index < collection.Length
    modifies collection
    ensures next == Step(st, line)
    ensures collection[..] == old(collection[..])[index := if remove && Deletes(st, line) then None else old(collection[index])]
  {
    var foundDrawer, drawerName, drawerlines, drawers := st.found, st.name, st.acc, st.drawers;
    var start := DrawerStart(line);
    if start.Some? {
      drawerName := start;
      foundDrawer := true;
      if remove {
        collection[index] := None;
      }
    } else if IsDrawerEnd(line) {
      foundDrawer := false;
      drawers := drawers[Key(drawerName) := drawerlines];
      drawerlines := [];
      if remove {
        collection[index] := None;
      }
    } else if foundDrawer {
      drawerlines := drawerlines + [line];
      if remove {
        collection[index] := None;
      }
    }
    next := ScanState(foundDrawer, drawerName, drawerlines, drawers);
  }

  /** `parseDrawers(collection, remove)`: returns the drawers of the body and,
      in remove mode, deletes the drawer lines from the array in place. */
  method ParseDrawers(collection: array<Option<string>>, remove: bool) returns (drawers: map<string, seq<string>>)
    requires forall k :: 0 <= k < collection.Length ==> collection[k].Some?
    modifies collection
    ensures drawers == Drawers(Present(old(collection[..])))
    ensures collection[..] == if remove then Punched(Present(old(collection[..]))) else old(collection[..])
  {
    ghost var lines := Present(collection[..]);
    ghost var holes := Holes(Initial, lines);
    var st := Initial;
    var index := 0;
    while index < collection.Length
      invariant 0 <= index <= collection.Length
      invariant Scan(st, lines[index..]) == Scan(Initial, lines)
      invariant Holes(st, lines[index..]) == holes[index..]
      invariant collection[..] == PunchedUpTo(lines, remove, index)
    {
      Advance(st, lines, index);
      PunchedNext(lines, remove, index);
      st := Visit(st, collection[index].value, index, collection, remove);
      index := index + 1;
    }
    drawers := st.drawers;
    ScanDone(st, lines);
    PunchedDone(collection[..], lines, remove);
  }

  /** The array once the callback has run on the lines before `index`. */
  ghost function PunchedUpTo(lines: seq<string>, remove: bool, index: nat): seq<Option<string>>
  {
    seq(|lines|, k requires 0 <= k < |lines| => if k < index && remove && Holes(Initial, lines)[k] then None else Some(lines[k]))
  }

  /** The callback on line `index` changes that cell alone. */
  lemma PunchedNext(lines: seq<string>, remove: bool, index: nat)
    requires index < |lines|
    ensures PunchedUpTo(lines, remove, index + 1) ==
      PunchedUpTo(lines, remove, index)[index := if remove && Holes(Initial, lines)[index] then None else Some(lines[index])]
  {
  }

  /** One step of the loop keeps its two scan invariants, and the line it
      reads is deleted exactly when the reference marks it as a hole. */
  lemma Advance(st: ScanState, lines: seq<string>, index: nat)
    requires index < |lines|
    requires Scan(st, lines[index..]) == Scan(Initial, lines)
    requires Holes(st, lines[index..]) == Holes(Initial, lines)[index..]
    ensures Scan(Step(st, lines[index]), lines[index + 1..]) == Scan(Initial, lines)
    ensures Holes(Step(st, lines[index]), lines[index + 1..]) == Holes(Initial, lines)[index + 1..]
    ensures Deletes(st, lines[index]) == Holes(Initial, lines)[index]
  {
    ScanNext(st, lines, index);
    HeadTail(Holes(Initial, lines), index);
  }

  /** Once every line is scanned, the state holds the drawers of the body. */
  lemma ScanDone(st: ScanState, lines: seq<string>)
    requires Scan(st, lines[|lines|..]) == Scan(Initial, lines)
    ensures st.drawers == Drawers(lines)
  {
    assert lines[|lines|..] == [];
  }

  /** Cells holding each line, or a hole where remove mode deletes it, are
      the punched body in remove mode and the untouched lines otherwise. */
  lemma PunchedDone(cells: seq<Option<string>>, lines: seq<string>, remove: bool)
    requires |cells| == |lines|
    requires forall k :: 0 <= k < |cells| ==> cells[k] == if remove && Holes(Initial, lines)[k] then None else Some(lines[k])
    ensures remove ==> cells == Punched(lines)
    ensures !remove ==> forall k :: 0 <= k < |cells| ==> cells[k] == Some(lines[k])
  {
  }
}
