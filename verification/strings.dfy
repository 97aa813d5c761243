/** String helpers shared by the parsers and the writer: the JavaScript
    `String.prototype.split` and `Array.prototype.join` on a one-character
    separator, the `\s` character class, and the `\r\n` normalisation that
    `parseContents` applies before splitting. */
module OrgStrings {

  /** `undefined` / `null` versus a present value. */
  datatype Option<+T> = None | Some(value: T)

  /** The JavaScript `\s` class: the WhiteSpace and LineTerminator code points. */
  predicate IsSpace(c: char)
  {
    c == ' ' || c == '\t' || c == '\n' || c == '\r' || c == '\U{000B}' || c == '\U{000C}' ||
    c == '\U{00A0}' || c == '\U{1680}' || ('\U{2000}' <= c <= '\U{200A}') ||
    c == '\U{2028}' || c == '\U{2029}' || c == '\U{202F}' || c == '\U{205F}' ||
    c == '\U{3000}' || c == '\U{FEFF}'
  }

  predicate AllSpace(s: string)
  {
    forall k :: 0 <= k < |s| ==> IsSpace(s[k])
  }

  /** The first index at or after `i` that does not hold whitespace (`\s*` taken greedily). */
  function SkipSpace(s: string, i: nat): (j: nat)
    requires i <= |s|
    ensures i <= j <= |s|
    ensures forall k :: i <= k < j ==> IsSpace(s[k])
    ensures j < |s| ==> !IsSpace(s[j])
    decreases |s| - i
  {
    if i == |s| || !IsSpace(s[i]) then i else SkipSpace(s, i + 1)
  }

  /** The characters `SkipSpace` passes over are all whitespace. */
  lemma SkippedSpace(s: string, i: nat)
    requires i <= |s|
    ensures AllSpace(s[i..SkipSpace(s, i)])
  {
    var j := SkipSpace(s, i);
    forall k | 0 <= k < j - i
      ensures IsSpace(s[i..j][k])
    {
      assert s[i..j][k] == s[i + k];
    }
  }

  /** The index of the first `d` in `s`, or `|s|` when there is none. */
  function IndexOf(s: string, d: char): (i: nat)
    ensures i <= |s|
    ensures d !in s[..i]
    ensures i < |s| ==> s[i] == d
  {
    if |s| == 0 then 0
    else if s[0] == d then 0
    else
      var i := 1 + IndexOf(s[1..], d);
      assert s[..i] == [s[0]] + s[1..][..i - 1];
      i
  }

  lemma IndexOfSeparator(a: string, d: char, b: string)
    requires d !in a
    ensures IndexOf(a + [d] + b, d) == |a|
  {
    var s := a + [d] + b;
    assert s[|a|] == d;
  }

  /** A string is its three consecutive pieces cut at `i` and `j`. */
  lemma Pieces(s: string, i: nat, j: nat)
    requires i <= j <= |s|
    ensures s == s[..i] + (s[i..j] + s[j..])
  {
    assert s[..j] == s[..i] + s[i..j];
  }

  /** `parts.join(d)`: the parts with one `d` between neighbours; `[].join(d)` is "". */
  function Join(parts: seq<string>, d: char): string
  {
    if |parts| == 0 then ""
    else if |parts| == 1 then parts[0]
    else parts[0] + [d] + Join(parts[1..], d)
  }

  /** `s.split(d)`: the maximal `d`-free pieces; always at least one piece ("" gives [""]). */
  function Split(s: string, d: char): (r: seq<string>)
    ensures |r| >= 1
    ensures forall k :: 0 <= k < |r| ==> d !in r[k]
    ensures Join(r, d) == s
    decreases |s|
  {
    var i := IndexOf(s, d);
    if i == |s| then
      assert s[..i] == s;
      [s]
    else
      var rest := Split(s[i + 1..], d);
      assert s == s[..i] + [d] + s[i + 1..];
      [s[..i]] + rest
  }

  /** Splitting undoes joining: the two are mutually inverse on non-empty lists of `d`-free parts. */
  lemma {:induction false} SplitJoin(parts: seq<string>, d: char)
    requires |parts| >= 1
    requires forall k :: 0 <= k < |parts| ==> d !in parts[k]
    ensures Split(Join(parts, d), d) == parts
    decreases |parts|
  {
    if |parts| == 1 {
      assert IndexOf(parts[0], d) == |parts[0]|;
    } else {
      var rest := Join(parts[1..], d);
      IndexOfSeparator(parts[0], d, rest);
      var s := parts[0] + [d] + rest;
      assert s[..|parts[0]|] == parts[0];
      assert s[|parts[0]| + 1..] == rest;
      SplitJoin(parts[1..], d);
    }
  }

  /** Joining a list of joined groups is joining their concatenation, when no group is empty. */
  lemma {:induction false} JoinConcat(a: seq<string>, b: seq<string>, d: char)
    requires |a| >= 1 && |b| >= 1
    ensures Join(a + b, d) == Join(a, d) + [d] + Join(b, d)
    decreases |a|
  {
    if |a| == 1 {
      assert (a + b)[1..] == b;
    } else {
      assert (a + b)[1..] == a[1..] + b;
      JoinConcat(a[1..], b, d);
    }
  }

  /** `s.replace(/\r\n/g, '\n')`: each carriage return / line feed pair, scanned left to right, becomes a line feed. */
  function NormalizeNewlines(s: string): (r: string)
    ensures |r| <= |s|
    ensures '\r' !in s ==> r == s
    ensures |r| == |s| ==> r == s
  {
    if |s| == 0 then ""
    else if |s| >= 2 && s[0] == '\r' && s[1] == '\n' then "\n" + NormalizeNewlines(s[2..])
    else
      assert '\r' !in s ==> '\r' !in s[1..] by {
        if '\r' in s[1..] {
          var k :| 0 <= k < |s[1..]| && s[1..][k] == '\r';
          assert s[k + 1] == '\r';
        }
      }
      [s[0]] + NormalizeNewlines(s[1..])
  }

  /** Each `\r\n` pair becomes one line feed, and the text on either side
      of it is normalised on its own. */
  lemma {:induction false} NormalizePair(a: string, b: string)
    ensures NormalizeNewlines(a + "\r\n" + b) == NormalizeNewlines(a) + "\n" + NormalizeNewlines(b)
    decreases |a|
  {
    var s := a + "\r\n" + b;
    if |a| == 0 {
      assert s == "\r\n" + b && s[2..] == b;
    } else if |a| >= 2 && a[0] == '\r' && a[1] == '\n' {
      assert s[..2] == a[..2] && s[2..] == a[2..] + "\r\n" + b;
      NormalizePair(a[2..], b);
    } else {
      assert s[0] == a[0] && s[1..] == a[1..] + "\r\n" + b;
      assert |a| >= 2 ==> s[1] == a[1];
      assert |a| == 1 ==> s[1] == '\r';
      NormalizePair(a[1..], b);
    }
  }

  /** A text holding no `\r\n` pair is left as it is: every carriage
      return not followed by a line feed, and every other character, is kept. */
  lemma {:induction false} NormalizeNoPair(s: string)
    requires forall i :: 0 <= i < |s| - 1 ==> !(s[i] == '\r' && s[i + 1] == '\n')
    ensures NormalizeNewlines(s) == s
    decreases |s|
  {
    if |s| > 0 {
      assert !(|s| >= 2 && s[0] == '\r' && s[1] == '\n');
      var t := s[1..];
      forall i | 0 <= i < |t| - 1
        ensures !(t[i] == '\r' && t[i + 1] == '\n')
      {
        assert t[i] == s[i + 1] && t[i + 1] == s[i + 2];
      }
      NormalizeNoPair(t);
      assert s == [s[0]] + t;
    }
  }
}
