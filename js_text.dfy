/** The three JavaScript string built-ins the radar decoder relies on:
    `String.prototype.trimEnd`, `split(/\n/g)` and `search(/[^\s]/)`.
    Strings are sequences of code units; only the behaviour the decoder
    observes is modelled. */
module JsText {

  /** The characters JavaScript's `\s` class and `trimEnd` treat as white
      space: the ECMAScript WhiteSpace and LineTerminator code points. */
  predicate IsWhitespace(c: char) {
    var n := c as int;
    (9 <= n <= 13) || n == 32 || n == 0xA0 || n == 0x1680 || (0x2000 <= n <= 0x200A)
    || n == 0x2028 || n == 0x2029 || n == 0x202F || n == 0x205F || n == 0x3000 || n == 0xFEFF
  }

  /** `s.trimEnd()`: the longest prefix of `s` that does not end in white space. */
  function TrimEnd(s: string): (r: string)
    ensures |r| <= |s| && r == s[..|r|]
    ensures forall i :: |r| <= i < |s| ==> IsWhitespace(s[i])
    ensures |r| > 0 ==> !IsWhitespace(r[|r| - 1])
  {
    if |s| == 0 then s
    else if IsWhitespace(s[|s| - 1]) then TrimEnd(s[..|s| - 1])
    else s
  }

  /** Joins rows with a line feed between consecutive rows (the inverse of `SplitLines`). */
  function JoinLines(rows: seq<string>): string
    requires |rows| > 0
  {
    if |rows| == 1 then rows[0] else rows[0] + "\n" + JoinLines(rows[1..])
  }

  /** `s.split(/\n/g)`: the pieces of `s` between line feeds; always at least one. */
  function SplitLines(s: string): (rows: seq<string>)
    ensures |rows| > 0
  {
    if |s| == 0 then [""]
    else
      var rest := SplitLines(s[1..]);
      if s[0] == '\n' then [""] + rest else [[s[0]] + rest[0]] + rest[1..]
  }

  /** No piece produced by `SplitLines` contains a line feed. */
  lemma {:induction false} SplitLinesNoNewline(s: string)
    ensures forall k :: 0 <= k < |SplitLines(s)| ==> '\n' !in SplitLines(s)[k]
  {
    if |s| > 0 {
      SplitLinesNoNewline(s[1..]);
    }
  }

  /** Splitting then joining gives back the text. */
  lemma {:induction false} JoinSplit(s: string)
    ensures JoinLines(SplitLines(s)) == s
  {
    if |s| > 0 {
      JoinSplit(s[1..]);
      var rest := SplitLines(s[1..]);
      if s[0] == '\n' {
        assert SplitLines(s) == [""] + rest;
        assert SplitLines(s)[1..] == rest;
      } else if |rest| == 1 {
        assert SplitLines(s) == [[s[0]] + rest[0]];
      } else {
        assert SplitLines(s)[1..] == rest[1..];
        assert JoinLines(rest) == rest[0] + "\n" + JoinLines(rest[1..]);
      }
    }
  }

  /** Joining rows that hold no line feed, then splitting, gives back the rows. */
  lemma {:induction false} SplitJoin(rows: seq<string>)
    requires |rows| > 0
    requires forall k :: 0 <= k < |rows| ==> '\n' !in rows[k]
    ensures SplitLines(JoinLines(rows)) == rows
  {
    if |rows| == 1 {
      SplitSingle(rows[0]);
    } else {
      SplitJoin(rows[1..]);
      SplitPrefix(rows[0], JoinLines(rows[1..]));
      assert [rows[0]] + rows[1..] == rows;
    }
  }

  /** A text without line feeds is one piece. */
  lemma {:induction false} SplitSingle(r: string)
    requires '\n' !in r
    ensures SplitLines(r) == [r]
  {
    if |r| > 0 {
      assert '\n' !in r[1..] by {
        forall k | 0 <= k < |r[1..]| ensures r[1..][k] != '\n' {
          assert r[1..][k] == r[k + 1];
        }
      }
      SplitSingle(r[1..]);
      assert [r[0]] + r[1..] == r;
    }
  }

  /** Splitting `r + "\n" + t` for a row `r` without line feeds puts `r` first. */
  lemma {:induction false} SplitPrefix(r: string, t: string)
    requires '\n' !in r
    ensures SplitLines(r + "\n" + t) == [r] + SplitLines(t)
  {
    if |r| == 0 {
      assert r + "\n" + t == "\n" + t;
      assert ("\n" + t)[1..] == t;
    } else {
      var s := r + "\n" + t;
      assert s[1..] == r[1..] + "\n" + t;
      assert '\n' !in r[1..] by {
        forall k | 0 <= k < |r[1..]| ensures r[1..][k] != '\n' {
          assert r[1..][k] == r[k + 1];
        }
      }
      SplitPrefix(r[1..], t);
      assert [r[0]] + r[1..] == r;
    }
  }

  /** Trimming ignores one more trailing white-space character. */
  lemma TrimEndWhitespace(s: string, c: char)
    requires IsWhitespace(c)
    ensures TrimEnd(s + [c]) == TrimEnd(s)
  {
    assert (s + [c])[..|s + [c]| - 1] == s;
  }

  /** A text that does not end in white space is its own trim. */
  lemma TrimEndKeeps(s: string)
    requires |s| > 0 && !IsWhitespace(s[|s| - 1])
    ensures TrimEnd(s) == s
  {
  }

  /** Joining one more row appends a line feed and the row. */
  lemma {:induction false} JoinLinesAppend(rows: seq<string>, r: string)
    requires |rows| > 0
    ensures JoinLines(rows + [r]) == JoinLines(rows) + "\n" + r
  {
    if |rows| > 1 {
      JoinLinesAppend(rows[1..], r);
      assert (rows + [r])[1..] == rows[1..] + [r];
    }
  }

  /** `row.search(/[^\s]/)`: the index of the first non-white-space character,
      or -1 when there is none. */
  function FirstNonWhitespace(row: string): (r: int)
    ensures -1 <= r < |row|
    ensures r == -1 <==> forall i :: 0 <= i < |row| ==> IsWhitespace(row[i])
    ensures r >= 0 ==> !IsWhitespace(row[r]) && forall i :: 0 <= i < r ==> IsWhitespace(row[i])
  {
    if |row| == 0 then -1
    else if !IsWhitespace(row[0]) then 0
    else
      var k := FirstNonWhitespace(row[1..]);
      if k == -1 then -1 else k + 1
  }
}
