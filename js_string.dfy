/** The JavaScript string built-ins the application relies on: `trim`,
    `toLowerCase`, `replace(/\s+/g, …)`, `split` and `join`, on strings of
    code points. */
module JsString {

  /** The characters JavaScript counts as white space or line terminators:
      what the regular expression class `\s` matches and what `trim` removes. */
  predicate IsWhitespace(c: char) {
    var n := c as int;
    n == 0x09 || n == 0x0A || n == 0x0B || n == 0x0C || n == 0x0D || n == 0x20
    || n == 0xA0 || n == 0x1680 || (0x2000 <= n <= 0x200A)
    || n == 0x2028 || n == 0x2029 || n == 0x202F || n == 0x205F
    || n == 0x3000 || n == 0xFEFF
  }

  predicate AllWhitespace(s: string) {
    forall i :: 0 <= i < |s| ==> IsWhitespace(s[i])
  }

  predicate NoWhitespace(s: string) {
    forall i :: 0 <= i < |s| ==> !IsWhitespace(s[i])
  }

  /** `trimStart`: drops the leading white space. */
  function TrimStart(s: string): string {
    if s != [] && IsWhitespace(s[0]) then TrimStart(s[1..]) else s
  }

  /** What `trimStart` drops is white space, and only that. */
  lemma {:induction false} TrimStartSpec(s: string)
    ensures var r := TrimStart(s);
      && |r| <= |s| && r == s[|s| - |r|..]
      && AllWhitespace(s[..|s| - |r|])
      && (r == [] || !IsWhitespace(r[0]))
  {
    if s != [] && IsWhitespace(s[0]) {
      TrimStartSpec(s[1..]);
      var r := TrimStart(s[1..]);
      assert s[..|s| - |r|] == [s[0]] + s[1..][..|s| - 1 - |r|];
    }
  }

  /** `trimEnd`: drops the trailing white space. */
  function TrimEnd(s: string): string {
    if s != [] && IsWhitespace(s[|s| - 1]) then TrimEnd(s[..|s| - 1]) else s
  }

  /** What `trimEnd` drops is white space, and only that. */
  lemma {:induction false} TrimEndSpec(s: string)
    ensures var r := TrimEnd(s);
      && |r| <= |s| && r == s[..|r|]
      && AllWhitespace(s[|r|..])
      && (r == [] || !IsWhitespace(r[|r| - 1]))
  {
    if s != [] && IsWhitespace(s[|s| - 1]) {
      TrimEndSpec(s[..|s| - 1]);
      var r := TrimEnd(s[..|s| - 1]);
      assert s[|r|..] == s[..|s| - 1][|r|..] + [s[|s| - 1]];
    }
  }

  /** `trim`: drops the leading and the trailing white space. */
  function Trim(s: string): string {
    TrimEnd(TrimStart(s))
  }

  /** `trim` keeps a contiguous part of the string with only white space
      around it and none at its ends; the result is empty exactly when the
      input is white space only. */
  lemma TrimSpec(s: string)
    ensures var r := Trim(s);
      && |r| <= |s|
      && (exists i :: 0 <= i <= |s| - |r| && r == s[i..i + |r|]
                      && AllWhitespace(s[..i]) && AllWhitespace(s[i + |r|..]))
      && (r == [] || (!IsWhitespace(r[0]) && !IsWhitespace(r[|r| - 1])))
      && (r == [] <==> AllWhitespace(s))
  {
    var t := TrimStart(s);
    var r := TrimEnd(t);
    var i := |s| - |t|;
    TrimStartSpec(s);
    TrimEndSpec(t);
    TrimPieces(s, t, r, i);
    assert 0 <= i <= |s| - |r| && r == s[i..i + |r|]
           && AllWhitespace(s[..i]) && AllWhitespace(s[i + |r|..]);
  }

  /** The facts behind `Trim`, for a string `s` whose leading white space
      ends at `i`, its rest `t`, and the part `r` of `t` before its trailing
      white space. */
  lemma TrimPieces(s: string, t: string, r: string, i: int)
    requires 0 <= i <= |s| && t == s[i..] && AllWhitespace(s[..i])
    requires t == [] || !IsWhitespace(t[0])
    requires |r| <= |t| && r == t[..|r|] && AllWhitespace(t[|r|..])
    requires r == [] || !IsWhitespace(r[|r| - 1])
    ensures i <= |s| - |r| && r == s[i..i + |r|] && AllWhitespace(s[i + |r|..])
    ensures r == [] || !IsWhitespace(r[0])
    ensures r == [] <==> AllWhitespace(s)
  {
    assert s[i + |r|..] == t[|r|..];
    if r == [] {
      assert s == s[..i] + t[|r|..];
    } else {
      assert r[0] == t[0];
    }
  }

  /** `toLowerCase` on one character, for the ASCII letters. */
  function LowerChar(c: char): (r: char)
    ensures 'A' <= c <= 'Z' ==> r as int == c as int + ('a' as int - 'A' as int)
    ensures !('A' <= r <= 'Z')
    ensures IsWhitespace(r) == IsWhitespace(c)
    ensures !('A' <= c <= 'Z') ==> r == c
  {
    if 'A' <= c <= 'Z' then (c as int + ('a' as int - 'A' as int)) as char else c
  }

  /** `toLowerCase`, character by character. */
  function ToLower(s: string): (r: string)
    ensures |r| == |s|
    ensures forall i :: 0 <= i < |s| ==> r[i] == LowerChar(s[i])
  {
    seq(|s|, i requires 0 <= i < |s| => LowerChar(s[i]))
  }

  /** Lower-casing works piece by piece. */
  lemma ToLowerAppend(a: string, b: string)
    ensures ToLower(a + b) == ToLower(a) + ToLower(b)
  {
  }

  /** `replace(/\s+/g, fill)`: every maximal run of white space becomes one
      `fill` character. */
  function ReplaceWhitespaceRuns(s: string, fill: char): (r: string)
    ensures |r| <= |s|
    ensures !IsWhitespace(fill) ==> NoWhitespace(r)
    ensures NoWhitespace(s) ==> r == s
    decreases |s|
  {
    if s == [] then []
    else if IsWhitespace(s[0]) then
      TrimStartSpec(s);
      [fill] + ReplaceWhitespaceRuns(TrimStart(s), fill)
    else [s[0]] + ReplaceWhitespaceRuns(s[1..], fill)
  }

  /** A whole run of white space, however long, followed by text that does
      not start with white space, yields exactly one `fill`. */
  lemma {:induction false} WhitespaceRunBecomesOneFill(run: string, rest: string, fill: char)
    requires run != [] && AllWhitespace(run)
    requires rest == [] || !IsWhitespace(rest[0])
    ensures ReplaceWhitespaceRuns(run + rest, fill) == [fill] + ReplaceWhitespaceRuns(rest, fill)
  {
    TrimStartOfRun(run, rest);
  }

  /** Text without white space passes through the replacement unchanged. */
  lemma {:induction false} ReplaceAfterWord(w: string, rest: string, fill: char)
    requires NoWhitespace(w)
    ensures ReplaceWhitespaceRuns(w + rest, fill) == w + ReplaceWhitespaceRuns(rest, fill)
    decreases |w|
  {
    if w == [] {
      assert w + rest == rest;
    } else {
      var c, t := w[0], w[1..];
      var replaced := ReplaceWhitespaceRuns(rest, fill);
      assert w + rest == [c] + (t + rest);
      ReplaceAfterChar(c, t + rest, fill);
      ReplaceAfterWord(t, rest, fill);
      ConsAppend(w, replaced);
    }
  }

  lemma ReplaceAfterChar(c: char, rest: string, fill: char)
    requires !IsWhitespace(c)
    ensures ReplaceWhitespaceRuns([c] + rest, fill) == [c] + ReplaceWhitespaceRuns(rest, fill)
  {
    assert ([c] + rest)[1..] == rest;
  }

  lemma ConsAppend(w: string, tail: string)
    requires w != []
    ensures [w[0]] + (w[1..] + tail) == w + tail
  {
    assert [w[0]] + w[1..] == w;
  }

  lemma {:induction false} TrimStartOfRun(run: string, rest: string)
    requires AllWhitespace(run)
    requires rest == [] || !IsWhitespace(rest[0])
    ensures TrimStart(run + rest) == rest
    decreases |run|
  {
    if run != [] {
      assert (run + rest)[1..] == run[1..] + rest;
      TrimStartOfRun(run[1..], rest);
    }
  }

  /** `sep` occurs in `s` at position `k`. */
  predicate OccursAt(s: string, sep: string, k: int) {
    0 <= k <= |s| - |sep| && s[k..k + |sep|] == sep
  }

  /** The index of the first occurrence of `sep` in `s`, or -1 (`indexOf`). */
  function IndexOf(s: string, sep: string): (r: int)
    requires |sep| > 0
    ensures r == -1 || OccursAt(s, sep, r)
    ensures forall k :: 0 <= k && (r < 0 || k < r) ==> !OccursAt(s, sep, k)
  {
    if |s| < |sep| then -1
    else if s[..|sep|] == sep then 0
    else
      var r := IndexOf(s[1..], sep);
      assert !OccursAt(s, sep, 0);
      assert forall k :: 1 <= k ==> OccursAt(s, sep, k) == OccursAt(s[1..], sep, k - 1);
      if r < 0 then -1 else r + 1
  }

  /** `split(sep)` for a non-empty separator: the pieces between the
      occurrences of `sep`, scanned from the left; never an empty list. */
  function Split(s: string, sep: string): (r: seq<string>)
    requires |sep| > 0
    ensures |r| >= 1
    decreases |s|
  {
    var i := IndexOf(s, sep);
    if i < 0 then [s] else [s[..i]] + Split(s[i + |sep|..], sep)
  }

  /** `join(sep)`: the pieces with `sep` between consecutive ones. */
  function Join(parts: seq<string>, sep: string): (r: string)
    ensures |parts| == 1 ==> r == parts[0]
    ensures |parts| == 0 ==> r == []
  {
    if |parts| == 0 then []
    else if |parts| == 1 then parts[0]
    else parts[0] + sep + Join(parts[1..], sep)
  }

  /** Joining the pieces of a split gives back the original string. */
  lemma {:induction false} JoinSplit(s: string, sep: string)
    requires |sep| > 0
    ensures Join(Split(s, sep), sep) == s
    decreases |s|
  {
    var i := IndexOf(s, sep);
    if i >= 0 {
      var rest := s[i + |sep|..];
      var parts := Split(rest, sep);
      JoinSplit(rest, sep);
      JoinCons(s[..i], parts, sep);
      assert s == s[..i] + sep + rest;
    }
  }

  lemma JoinCons(first: string, parts: seq<string>, sep: string)
    requires |parts| >= 1
    ensures Join([first] + parts, sep) == first + sep + Join(parts, sep)
  {
    assert ([first] + parts)[1..] == parts;
  }

  /** The text after the first occurrence of `sep`, or "" when there is none. */
  function AfterFirst(s: string, sep: string): (r: string)
    requires |sep| > 0
    ensures |r| < |s| || r == []
  {
    var i := IndexOf(s, sep);
    if i < 0 then [] else s[i + |sep|..]
  }

  /** `s.split(sep).slice(1).join(sep)` is the text after the first `sep`. */
  lemma {:induction false} JoinTailOfSplit(s: string, sep: string)
    requires |sep| > 0
    ensures Join(Split(s, sep)[1..], sep) == AfterFirst(s, sep)
  {
    var i := IndexOf(s, sep);
    if i >= 0 {
      var rest := s[i + |sep|..];
      var tail := Split(rest, sep);
      assert Split(s, sep) == [s[..i]] + tail;
      TailOfCons(s[..i], tail);
      JoinSplit(rest, sep);
    } else {
      assert Split(s, sep) == [s];
    }
  }

  lemma TailOfCons(x: string, xs: seq<string>)
    ensures ([x] + xs)[1..] == xs
  {
  }

  /** For a one-character separator that occurs in none of the pieces,
      splitting the join gives back the pieces. */
  lemma {:induction false} SplitJoin(parts: seq<string>, sep: string)
    requires |sep| == 1
    requires |parts| >= 1
    requires forall j, k :: 0 <= j < |parts| && 0 <= k < |parts[j]| ==> parts[j][k] != sep[0]
    ensures Split(Join(parts, sep), sep) == parts
    decreases |parts|
  {
    var s := Join(parts, sep);
    if |parts| == 1 {
      NotFound(parts[0], sep);
    } else {
      var p := parts[0];
      var rest := Join(parts[1..], sep);
      assert s == p + sep + rest;
      NotFound(p, sep);
      assert s[..|p|] == p;
      assert OccursAt(s, sep, |p|);
      assert forall k :: 0 <= k < |p| ==> !OccursAt(s, sep, k) by {
        forall k | 0 <= k < |p| ensures !OccursAt(s, sep, k) {
          assert s[k..k + 1][0] == p[k];
        }
      }
      assert IndexOf(s, sep) == |p|;
      assert s[|p| + 1..] == rest;
      SplitJoin(parts[1..], sep);
    }
  }

  lemma NotFound(p: string, sep: string)
    requires |sep| == 1
    requires forall k :: 0 <= k < |p| ==> p[k] != sep[0]
    ensures IndexOf(p, sep) == -1
  {
  }
}
