/** String helpers shared by the pipeline model: ASCII lower-casing, substring
    search, newline joining and splitting, and prefix truncation. */
module Text {

  /** Lower-cases one ASCII letter; every other character is left alone. */
  function LowerChar(c: char): char
  {
    if 'A' <= c <= 'Z' then (c as int - 'A' as int + 'a' as int) as char else c
  }

  /** ASCII lower-casing of a whole string, character by character. */
  function Lower(s: string): (r: string)
    ensures |r| == |s|
    ensures forall i :: 0 <= i < |s| ==> r[i] == LowerChar(s[i])
  {
    seq(|s|, i requires 0 <= i < |s| => LowerChar(s[i]))
  }

  /** Lower-casing leaves no upper-case ASCII letter behind. */
  lemma LowerHasNoUpper(s: string)
    ensures forall i :: 0 <= i < |Lower(s)| ==> !('A' <= Lower(s)[i] <= 'Z')
  {
  }

  /** Lower-casing twice is lower-casing once. */
  lemma LowerIdempotent(s: string)
    ensures Lower(Lower(s)) == Lower(s)
  {
  }

  /** `sub` occurs in `s` starting at offset `i`. */
  ghost predicate OccursAt(sub: string, s: string, i: int)
  {
    0 <= i <= |s| - |sub| && s[i..i + |sub|] == sub
  }

  /** `sub` occurs in `s` at some offset: the meaning of Python's `sub in s`. */
  ghost predicate Occurs(sub: string, s: string)
  {
    exists i :: OccursAt(sub, s, i)
  }

  /** Executable substring search, scanning offsets left to right. */
  function Contains(s: string, sub: string): (r: bool)
    ensures r <==> Occurs(sub, s)
    decreases |s|
  {
    if |s| < |sub| then false
    else if s[..|sub|] == sub then assert OccursAt(sub, s, 0); true
    else
      var r := Contains(s[1..], sub);
      assert Occurs(sub, s[1..]) ==> Occurs(sub, s) by {
        if Occurs(sub, s[1..]) {
          var i :| OccursAt(sub, s[1..], i);
          assert s[i + 1..i + 1 + |sub|] == s[1..][i..i + |sub|];
          assert OccursAt(sub, s, i + 1);
        }
      }
      assert Occurs(sub, s) ==> Occurs(sub, s[1..]) by {
        if Occurs(sub, s) {
          var i :| OccursAt(sub, s, i);
          assert i != 0;
          assert s[1..][i - 1..i - 1 + |sub|] == s[i..i + |sub|];
          assert OccursAt(sub, s[1..], i - 1);
        }
      }
      r
  }

  /** Some keyword of `keywords` occurs in `s`. */
  ghost predicate OccursAny(keywords: seq<string>, s: string)
  {
    exists k :: 0 <= k < |keywords| && Occurs(keywords[k], s)
  }

  /** Executable form of Python's `any(kw in s for kw in keywords)`. */
  function ContainsAny(s: string, keywords: seq<string>): (r: bool)
    ensures r <==> OccursAny(keywords, s)
  {
    if |keywords| == 0 then false
    else if Contains(s, keywords[0]) then true
    else
      var r := ContainsAny(s, keywords[1..]);
      assert OccursAny(keywords[1..], s) <==> OccursAny(keywords, s) by {
        if OccursAny(keywords, s) {
          var k :| 0 <= k < |keywords| && Occurs(keywords[k], s);
          assert k != 0;
          assert keywords[1..][k - 1] == keywords[k];
        }
        if OccursAny(keywords[1..], s) {
          var k :| 0 <= k < |keywords[1..]| && Occurs(keywords[1..][k], s);
          assert keywords[k + 1] == keywords[1..][k];
        }
      }
      r
  }

  /** The first `n` characters of `s`, or all of `s` if it is shorter:
      Python's `s[:n]` for a non-negative `n`. */
  function Take(s: string, n: nat): (r: string)
    ensures |r| == if |s| < n then |s| else n
    ensures r <= s
  {
    if |s| < n then s else s[..n]
  }

  /** Python's `"\n".join(lines)`. */
  function JoinLines(lines: seq<string>): (r: string)
    ensures |lines| == 0 ==> r == ""
    ensures |lines| >= 1 ==> lines[0] <= r
  {
    if |lines| == 0 then ""
    else if |lines| == 1 then lines[0]
    else lines[0] + "\n" + JoinLines(lines[1..])
  }

  /** Python's `s.split("\n")`: always at least one piece; the empty string
      gives one empty piece. */
  function SplitLines(s: string): (r: seq<string>)
    ensures |r| >= 1
  {
    if |s| == 0 then [""]
    else
      var rest := SplitLines(s[1..]);
      if s[0] == '\n' then [""] + rest
      else [[s[0]] + rest[0]] + rest[1..]
  }

  /** A newline-free prefix glues onto the first piece of what follows it. */
  lemma {:induction false} SplitLinesPrefix(a: string, t: string)
    requires '\n' !in a
    ensures SplitLines(a + t) == [a + SplitLines(t)[0]] + SplitLines(t)[1..]
    decreases |a|
  {
    if |a| == 0 {
      assert a + t == t;
      var pieces := SplitLines(t);
      assert a + pieces[0] == pieces[0];
      assert [pieces[0]] + pieces[1..] == pieces;
    } else {
      assert (a + t)[1..] == a[1..] + t;
      assert a[0] in a;
      SplitLinesPrefix(a[1..], t);
      assert [a[0]] + (a[1..] + SplitLines(t)[0]) == a + SplitLines(t)[0];
    }
  }

  /** Splitting a newline join gives the lines back, provided no line holds a
      newline of its own. */
  lemma {:induction false} SplitJoinLines(lines: seq<string>)
    requires |lines| >= 1
    requires forall k :: 0 <= k < |lines| ==> '\n' !in lines[k]
    ensures SplitLines(JoinLines(lines)) == lines
    decreases |lines|
  {
    if |lines| == 1 {
      SplitLinesPrefix(lines[0], "");
      assert lines[0] + "" == lines[0];
    } else {
      var t := "\n" + JoinLines(lines[1..]);
      assert JoinLines(lines) == lines[0] + t;
      SplitLinesPrefix(lines[0], t);
      assert t[1..] == JoinLines(lines[1..]);
      SplitJoinLines(lines[1..]);
      assert SplitLines(t) == [""] + lines[1..];
      assert lines[0] + "" == lines[0];
    }
  }
}
