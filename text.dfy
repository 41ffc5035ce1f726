/** String helpers with the semantics of the Kotlin and Rust standard functions the
    sources call: literal split, substring search, replace-all, trim, whitespace
    tokenising and line splitting. */
module Text {
  import opened Base

  /** ASCII whitespace: tab, line feed, vertical tab, form feed, carriage return, space. */
  predicate IsSpace(c: char)
  {
    c == ' ' || c == '\t' || c == '\n' || c == '\r' || c == '\U{0B}' || c == '\U{0C}'
  }

  /** Joins parts with the separator between each neighbouring pair. */
  function Join(parts: seq<string>, c: char): string
    requires |parts| >= 1
  {
    if |parts| == 1 then parts[0] else parts[0] + [c] + Join(parts[1..], c)
  }

  /** Splitting on a literal character, keeping empty pieces (Kotlin `split`, Rust `split`). */
  function Split(s: string, c: char): (parts: seq<string>)
    ensures |parts| >= 1
    ensures forall i :: 0 <= i < |parts| ==> c !in parts[i]
  {
    if |s| == 0 then [""]
    else
      var rest := Split(s[1..], c);
      if s[0] == c then [""] + rest else [[s[0]] + rest[0]] + rest[1..]
  }

  lemma {:induction false} JoinSplit(s: string, c: char)
    ensures Join(Split(s, c), c) == s
  {
    if |s| > 0 {
      JoinSplit(s[1..], c);
      var rest := Split(s[1..], c);
      if s[0] != c {
        if |rest| > 1 {
          assert Split(s, c)[1..] == rest[1..];
        }
      }
    }
  }

  lemma {:induction false} SplitNoSep(a: string, c: char)
    requires c !in a
    ensures Split(a, c) == [a]
  {
    if |a| > 0 {
      SplitNoSep(a[1..], c);
      assert [a[0]] + a[1..] == a;
    }
  }

  lemma {:induction false} SplitAt(a: string, c: char, b: string)
    requires c !in a
    ensures Split(a + [c] + b, c) == [a] + Split(b, c)
  {
    if |a| == 0 {
      assert a + [c] + b == [c] + b;
      assert ([c] + b)[1..] == b;
    } else {
      assert (a + [c] + b)[1..] == a[1..] + [c] + b;
      SplitAt(a[1..], c, b);
      assert [a[0]] + a[1..] == a;
    }
  }

  /** Text in front never lowers the number of pieces, and a separator in it adds one. */
  lemma {:induction false} SplitPrefix(a: string, c: char, b: string)
    ensures |Split(a + b, c)| >= |Split(b, c)| + (if c in a then 1 else 0)
  {
    if |a| == 0 {
      assert a + b == b;
    } else {
      assert (a + b)[1..] == a[1..] + b;
      SplitPrefix(a[1..], c, b);
      assert a == [a[0]] + a[1..];
    }
  }

  /** A character that does not occur is not contained as a one-character pattern. */
  lemma AbsentChar(s: string, c: char)
    requires c !in s
    ensures !Contains(s, [c])
  {
    forall i: nat | i + 1 <= |s| ensures !OccursAt(s, [c], i) {
      assert s[i..i + 1][0] == s[i];
    }
  }

  /** A separator that occurs gives at least two pieces. */
  lemma {:induction false} SplitHasTwo(s: string, c: char)
    requires c in s
    ensures |Split(s, c)| >= 2
  {
    if s[0] != c {
      SplitHasTwo(s[1..], c);
    }
  }

  predicate StartsWith(s: string, p: string)
  {
    |p| <= |s| && s[..|p|] == p
  }

  /** pat occurs in s starting at index i. */
  predicate OccursAt(s: string, pat: string, i: nat)
  {
    i + |pat| <= |s| && s[i..i + |pat|] == pat
  }

  lemma OccursShift(s: string, pat: string)
    requires |s| > 0
    ensures forall i: nat :: OccursAt(s[1..], pat, i) <==> OccursAt(s, pat, i + 1)
    ensures forall i: nat :: 1 <= i ==> (OccursAt(s, pat, i) <==> OccursAt(s[1..], pat, i - 1))
  {
    forall i: nat ensures OccursAt(s[1..], pat, i) <==> OccursAt(s, pat, i + 1) {
      if i + 1 + |pat| <= |s| {
        var u, v := s[i + 1..i + 1 + |pat|], s[1..][i..i + |pat|];
        assert |u| == |v|;
        forall k | 0 <= k < |u| ensures u[k] == v[k] {
          assert u[k] == s[i + 1 + k];
          assert v[k] == s[1..][i + k];
        }
        assert u == v;
      }
    }
    forall i: nat | 1 <= i ensures OccursAt(s, pat, i) <==> OccursAt(s[1..], pat, i - 1) {
      assert OccursAt(s[1..], pat, i - 1) <==> OccursAt(s, pat, i - 1 + 1);
    }
  }

  /** Index of the first occurrence of pat in s (Kotlin `indexOf`, Rust `find`). */
  function Find(s: string, pat: string): (r: Option<nat>)
    ensures r.Some? ==> OccursAt(s, pat, r.value)
    ensures forall i: nat :: OccursAt(s, pat, i) ==> r.Some? && r.value <= i
  {
    if |s| < |pat| then None
    else if s[..|pat|] == pat then Some(0)
    else
      OccursShift(s, pat);
      assert !OccursAt(s, pat, 0);
      match Find(s[1..], pat)
      case None => None
      case Some(j) => Some(j + 1)
  }

  predicate Contains(s: string, pat: string)
  {
    Find(s, pat).Some?
  }

  /** Every occurrence of a non-empty pattern, scanned left to right without overlap,
      replaced by rep (Kotlin `String.replace`, Rust `str::replace`). */
  function Replace(s: string, pat: string, rep: string): string
    requires |pat| > 0
  {
    if |s| < |pat| then s
    else if s[..|pat|] == pat then rep + Replace(s[|pat|..], pat, rep)
    else [s[0]] + Replace(s[1..], pat, rep)
  }

  /** Replacing a single character distributes over concatenation. */
  lemma {:induction false} ReplaceCharConcat(a: string, b: string, c: char, rep: string)
    ensures Replace(a + b, [c], rep) == Replace(a, [c], rep) + Replace(b, [c], rep)
  {
    if |a| > 0 {
      var ab := a + b;
      assert ab[1..] == a[1..] + b;
      assert ab[..1] == [a[0]] && a[..1] == [a[0]];
      ReplaceCharConcat(a[1..], b, c, rep);
      if a[0] == c {
        assert Replace(ab, [c], rep) == rep + Replace(ab[1..], [c], rep);
        assert Replace(a, [c], rep) == rep + Replace(a[1..], [c], rep);
      } else {
        assert Replace(ab, [c], rep) == [a[0]] + Replace(ab[1..], [c], rep);
        assert Replace(a, [c], rep) == [a[0]] + Replace(a[1..], [c], rep);
      }
    } else {
      assert a + b == b;
    }
  }

  /** A pattern that does not occur leaves the string unchanged. */
  lemma {:induction false} ReplaceAbsent(s: string, pat: string, rep: string)
    requires |pat| > 0 && !Contains(s, pat)
    ensures Replace(s, pat, rep) == s
  {
    if |s| >= |pat| {
      assert !OccursAt(s, pat, 0);
      OccursShift(s, pat);
      ReplaceAbsent(s[1..], pat, rep);
    }
  }

  /** A string that starts with the pattern has its first occurrence replaced there. */
  lemma ReplaceHeadMatch(pat: string, r: string, rep: string)
    requires |pat| > 0
    ensures Replace(pat + r, pat, rep) == rep + Replace(r, pat, rep)
  {
    assert (pat + r)[..|pat|] == pat && (pat + r)[|pat|..] == r;
  }

  /** A first character that cannot begin the pattern is kept and the scan moves on. */
  lemma ReplaceHeadOther(c: char, r: string, pat: string, rep: string)
    requires |pat| > 0 && pat[0] != c
    ensures Replace([c] + r, pat, rep) == [c] + Replace(r, pat, rep)
  {
    var s := [c] + r;
    assert s[1..] == r;
    if |s| < |pat| {
      assert Replace(r, pat, rep) == r;
    } else {
      assert s[..|pat|][0] != pat[0];
    }
  }

  function TrimStart(s: string): (r: string)
    ensures |r| <= |s| && r == s[|s| - |r|..]
    ensures forall i :: 0 <= i < |s| - |r| ==> IsSpace(s[i])
    ensures r == [] || !IsSpace(r[0])
  {
    if |s| > 0 && IsSpace(s[0]) then TrimStart(s[1..]) else s
  }

  function TrimEnd(s: string): (r: string)
    ensures |r| <= |s| && r == s[..|r|]
    ensures forall i :: |r| <= i < |s| ==> IsSpace(s[i])
    ensures r == [] || !IsSpace(r[|r| - 1])
  {
    if |s| > 0 && IsSpace(s[|s| - 1]) then TrimEnd(s[..|s| - 1]) else s
  }

  /** Leading and trailing whitespace removed (Kotlin `trim`, Rust `trim`). */
  function Trim(s: string): string
  {
    TrimEnd(TrimStart(s))
  }

  /** Splitting on maximal runs of whitespace, keeping a leading and a trailing empty
      piece (Kotlin `split(Regex("\\s+"))`). */
  function SplitRuns(s: string): (parts: seq<string>)
    ensures |parts| >= 1
    ensures forall i, j :: 0 <= i < |parts| && 0 <= j < |parts[i]| ==> !IsSpace(parts[i][j])
  {
    if |s| == 0 then [""]
    else
      var rest := SplitRuns(s[1..]);
      if IsSpace(s[0]) then (if |s| > 1 && IsSpace(s[1]) then rest else [""] + rest)
      else [[s[0]] + rest[0]] + rest[1..]
  }

  function NonEmpty(parts: seq<string>): (r: seq<string>)
    ensures forall i :: 0 <= i < |r| ==> r[i] != [] && r[i] in parts
    ensures forall p :: p in parts && p != [] ==> p in r
  {
    if parts == [] then []
    else if parts[0] == [] then NonEmpty(parts[1..])
    else [parts[0]] + NonEmpty(parts[1..])
  }

  /** The whitespace-separated tokens of s (Rust `split_whitespace`). */
  function Words(s: string): (r: seq<string>)
    ensures forall i :: 0 <= i < |r| ==> r[i] != []
  {
    NonEmpty(SplitRuns(s))
  }

  function StripCR(line: string): (r: string)
    ensures r == line || (r + "\r" == line)
  {
    if |line| > 0 && line[|line| - 1] == '\r' then line[..|line| - 1] else line
  }

  function MapStripCR(parts: seq<string>): (r: seq<string>)
    ensures |r| == |parts|
  {
    if parts == [] then [] else [StripCR(parts[0])] + MapStripCR(parts[1..])
  }

  /** The lines of s as Rust's `str::lines` gives them since Rust 1.77: split at every
      line feed, a final empty piece dropped, and one carriage return removed from each
      line that a line feed ends. An unterminated last line keeps its carriage return. */
  function Lines(s: string): seq<string>
  {
    var parts := Split(s, '\n');
    var last := parts[|parts| - 1];
    MapStripCR(parts[..|parts| - 1]) + (if last == "" then [] else [last])
  }

  /** Splitting on a non-empty literal string (Rust `split(&str)`). */
  function SplitStr(s: string, sep: string): (parts: seq<string>)
    requires |sep| > 0
    ensures |parts| >= 1
    decreases |s|
  {
    match Find(s, sep)
    case None => [s]
    case Some(i) => [s[..i]] + SplitStr(s[i + |sep|..], sep)
  }

  /** The characters before the first line terminator. */
  function LineOf(s: string): (r: string)
    ensures '\n' !in r && '\r' !in r && StartsWith(s, r)
    ensures |r| < |s| ==> s[|r|] == '\n' || s[|r|] == '\r'
  {
    if s == [] || s[0] == '\n' || s[0] == '\r' then [] else [s[0]] + LineOf(s[1..])
  }

  /** Java `BufferedReader.readLine` on what the peer sent: no line at end of stream,
      otherwise the text up to a line feed or carriage return. */
  function ReadLine(input: string): (r: Option<string>)
    ensures r.None? <==> input == []
  {
    if input == [] then None else Some(LineOf(input))
  }

  lemma {:induction false} LineOfTerminated(a: string, rest: string)
    requires '\n' !in a && '\r' !in a
    ensures LineOf(a + "\n" + rest) == a
  {
    if a == [] {
      assert (a + "\n" + rest)[0] == '\n';
    } else {
      assert (a + "\n" + rest)[1..] == a[1..] + "\n" + rest;
      LineOfTerminated(a[1..], rest);
    }
  }
}
