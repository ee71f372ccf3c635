/** The Python string methods the core applies to model output and user input:
    `lower`, `strip`, `rstrip`, `split`, `replace`, `title`, substring tests (`t in s`),
    and the character classes behind `isalnum`. Characters are treated as ASCII. */
module Text {
  import opened Seqs

  // ---------------------------------------------------------------- characters

  predicate IsUpper(ch: char) { 'A' <= ch <= 'Z' }
  predicate IsLower(ch: char) { 'a' <= ch <= 'z' }
  predicate IsLetter(ch: char) { IsUpper(ch) || IsLower(ch) }
  predicate IsDigit(ch: char) { '0' <= ch <= '9' }
  predicate IsAlnum(ch: char) { IsLetter(ch) || IsDigit(ch) }

  /** The characters `str.strip()` removes (ASCII space, tab, newline, carriage return,
      vertical tab and form feed). */
  const Whitespace: set<char> := {' ', '\t', '\n', '\r', 11 as char, 12 as char}

  function LowerChar(ch: char): char {
    if IsUpper(ch) then (ch as int + 32) as char else ch
  }

  function UpperChar(ch: char): char {
    if IsLower(ch) then (ch as int - 32) as char else ch
  }

  /** `s.lower()`. */
  function Lower(s: string): (r: string)
    ensures |r| == |s|
    ensures forall i :: 0 <= i < |s| ==> r[i] == LowerChar(s[i]) && !IsUpper(r[i])
  {
    seq(|s|, i requires 0 <= i < |s| => LowerChar(s[i]))
  }

  lemma LowerIdempotent(s: string)
    ensures Lower(Lower(s)) == Lower(s)
  {
  }

  /** Stripping and lower-casing commute: no whitespace character is a capital. */
  lemma {:induction false} LowerStrip(s: string)
    ensures Strip(Lower(s)) == Lower(Strip(s))
  {
    LowerTrimLeft(s);
    LowerTrimRight(TrimLeft(s, Whitespace));
  }

  lemma {:induction false} LowerTrimLeft(s: string)
    ensures TrimLeft(Lower(s), Whitespace) == Lower(TrimLeft(s, Whitespace))
    decreases |s|
  {
    if s == [] {
    } else if s[0] in Whitespace {
      assert Lower(s)[0] in Whitespace;
      assert Lower(s)[1..] == Lower(s[1..]);
      LowerTrimLeft(s[1..]);
    } else {
      assert Lower(s)[0] !in Whitespace;
    }
  }

  lemma {:induction false} LowerTrimRight(s: string)
    ensures TrimRight(Lower(s), Whitespace) == Lower(TrimRight(s, Whitespace))
    decreases |s|
  {
    if s == [] {
    } else if s[|s| - 1] in Whitespace {
      var p := s[..|s| - 1];
      assert TrimRight(Lower(s), Whitespace) == TrimRight(Lower(p), Whitespace) by {
        assert Lower(s)[|s| - 1] in Whitespace;
        assert Lower(s)[..|s| - 1] == Lower(p);
      }
      assert TrimRight(s, Whitespace) == TrimRight(p, Whitespace);
      LowerTrimRight(p);
    } else {
      assert Lower(s)[|s| - 1] !in Whitespace;
    }
  }

  // ---------------------------------------------------------------- substrings

  predicate OccursAt(s: string, t: string, i: int) {
    0 <= i && i + |t| <= |s| && s[i..i + |t|] == t
  }

  /** Python's `t in s`. */
  predicate Contains(s: string, t: string) {
    exists i :: 0 <= i <= |s| - |t| && OccursAt(s, t, i)
  }

  /** A substring of `a` is a substring of every string that has `a` on either side. */
  lemma ContainsConcat(a: string, b: string, t: string)
    requires Contains(a, t)
    ensures Contains(a + b, t) && Contains(b + a, t)
  {
    var i :| 0 <= i <= |a| - |t| && OccursAt(a, t, i);
    assert (a + b)[i..i + |t|] == a[i..i + |t|];
    assert OccursAt(a + b, t, i);
    assert (b + a)[|b| + i..|b| + i + |t|] == a[i..i + |t|];
    assert OccursAt(b + a, t, |b| + i);
  }

  /** A string shorter than `t` cannot contain it. */
  lemma ShortNotContains(s: string, t: string)
    requires |s| < |t|
    ensures !Contains(s, t)
  {
  }

  // ---------------------------------------------------------------- stripping

  /** `s.lstrip(chars)`. */
  function TrimLeft(s: string, chars: set<char>): (r: string)
    ensures |r| <= |s| && r == s[|s| - |r|..]
    ensures r == [] || r[0] !in chars
    ensures forall i :: 0 <= i < |s| - |r| ==> s[i] in chars
  {
    if s != [] && s[0] in chars then TrimLeft(s[1..], chars) else s
  }

  /** `s.rstrip(chars)`. */
  function TrimRight(s: string, chars: set<char>): (r: string)
    ensures |r| <= |s| && r == s[..|r|]
    ensures r == [] || r[|r| - 1] !in chars
    ensures forall i :: |r| <= i < |s| ==> s[i] in chars
  {
    if s != [] && s[|s| - 1] in chars then TrimRight(s[..|s| - 1], chars) else s
  }

  /** `s.strip(chars)`; with `Whitespace` this is `s.strip()`. The result is a slice of `s`
      whose ends are not in `chars`, and everything cut off is in `chars`. */
  function Trim(s: string, chars: set<char>): (r: string)
    ensures |r| <= |s|
    ensures r == [] || (r[0] !in chars && r[|r| - 1] !in chars)
  {
    TrimRight(TrimLeft(s, chars), chars)
  }

  /** The result of `strip` is a slice of its input, and everything cut off is in
      `chars`. */
  lemma TrimIsSlice(s: string, chars: set<char>) returns (a: nat, b: nat)
    ensures a <= b <= |s| && Trim(s, chars) == s[a..b]
    ensures forall i :: 0 <= i < a ==> s[i] in chars
    ensures forall i :: b <= i < |s| ==> s[i] in chars
  {
    var l := TrimLeft(s, chars);
    var r := TrimRight(l, chars);
    a, b := |s| - |l|, |s| - |l| + |r|;
    assert r == s[a..b];
  }

  /** `strip` adds no character. */
  lemma TrimKeepsOut(s: string, chars: set<char>, c: char)
    requires c !in s
    ensures c !in Trim(s, chars)
  {
    var a, b := TrimIsSlice(s, chars);
    assert forall i :: 0 <= i < b - a ==> Trim(s, chars)[i] == s[a + i];
  }

  function Strip(s: string): string {
    Trim(s, Whitespace)
  }

  /** `lstrip` removes a prefix made of `chars` and stops at the first other character. */
  lemma {:induction false} TrimLeftPrefix(p: string, s: string, chars: set<char>)
    requires forall i :: 0 <= i < |p| ==> p[i] in chars
    requires s == [] || s[0] !in chars
    ensures TrimLeft(p + s, chars) == s
  {
    if p != [] {
      assert (p + s)[1..] == p[1..] + s;
      TrimLeftPrefix(p[1..], s, chars);
    }
  }

  /** `rstrip` removes a suffix made of `chars` and stops at the last other character. */
  lemma {:induction false} TrimRightSuffix(s: string, p: string, chars: set<char>)
    requires forall i :: 0 <= i < |p| ==> p[i] in chars
    requires s == [] || s[|s| - 1] !in chars
    ensures TrimRight(s + p, chars) == s
  {
    if p != [] {
      assert (s + p)[..|s + p| - 1] == s + p[..|p| - 1];
      TrimRightSuffix(s, p[..|p| - 1], chars);
    }
  }

  /** A string with no whitespace at either end is its own `strip()`. */
  lemma StripNoop(s: string)
    requires s != [] && s[0] !in Whitespace && s[|s| - 1] !in Whitespace
    ensures Strip(s) == s
  {
    assert TrimLeft(s, Whitespace) == s;
  }

  /** A string without any character of `chars` is left alone by `rstrip(chars)`. */
  lemma TrimRightNoop(s: string, chars: set<char>)
    requires forall i :: 0 <= i < |s| ==> s[i] !in chars
    ensures TrimRight(s, chars) == s
  {
  }

  // ---------------------------------------------------------------- splitting

  /** `s.split(c)` for a one-character separator: always at least one piece, and no piece
      contains the separator. */
  function Split(s: string, c: char): (r: seq<string>)
    ensures |r| >= 1
    ensures forall k :: 0 <= k < |r| ==> c !in r[k]
  {
    if s == [] then [[]]
    else if s[0] == c then [[]] + Split(s[1..], c)
    else
      var rest := Split(s[1..], c);
      [[s[0]] + rest[0]] + rest[1..]
  }

  /** Splitting and joining back with the same separator gives the original string. */
  lemma {:induction false} JoinSplit(s: string, c: char)
    ensures Join(Split(s, c), [c]) == s
  {
    if s != [] {
      var rest := Split(s[1..], c);
      JoinSplit(s[1..], c);
      if s[0] == c {
        assert Split(s, c) == [[]] + rest;
        assert ([[]] + rest)[1..] == rest;
      } else {
        var r := Split(s, c);
        assert r == [[s[0]] + rest[0]] + rest[1..];
        if |rest| > 1 {
          assert r[1..] == rest[1..];
        }
      }
    }
  }

  /** Splitting a separator-free piece followed by the separator. */
  lemma {:induction false} SplitPrefix(x: string, c: char, y: string)
    requires c !in x
    ensures Split(x + [c] + y, c) == [x] + Split(y, c)
  {
    if x == [] {
      assert [c] + y == x + [c] + y;
      assert ([c] + y)[1..] == y;
    } else {
      assert (x + [c] + y)[1..] == x[1..] + [c] + y;
      SplitPrefix(x[1..], c, y);
      assert [x[0]] + x[1..] == x;
    }
  }

  lemma {:induction false} SplitNoSeparator(x: string, c: char)
    requires c !in x
    ensures Split(x, c) == [x]
  {
    if x != [] {
      SplitNoSeparator(x[1..], c);
      assert [x[0]] + x[1..] == x;
    }
  }

  /** Joining separator-free pieces and splitting again gives the pieces back. */
  lemma {:induction false} SplitJoin(parts: seq<string>, c: char)
    requires |parts| >= 1
    requires forall k :: 0 <= k < |parts| ==> c !in parts[k]
    ensures Split(Join(parts, [c]), c) == parts
  {
    if |parts| == 1 {
      SplitNoSeparator(parts[0], c);
    } else {
      SplitJoin(parts[1..], c);
      SplitPrefix(parts[0], c, Join(parts[1..], [c]));
      assert [parts[0]] + parts[1..] == parts;
    }
  }

  lemma {:induction false} JoinLast(parts: seq<string>, sep: string)
    requires |parts| >= 2
    ensures Join(parts, sep) == Join(parts[..|parts| - 1], sep) + sep + parts[|parts| - 1]
  {
    var n := |parts|;
    assert parts == parts[..n - 1] + [parts[n - 1]];
    JoinSnoc(parts[..n - 1], parts[n - 1], sep);
  }

  /** `s.split(c)[-1]`: the longest suffix of `s` without `c`. */
  function LastSegment(s: string, c: char): (r: string)
    ensures c !in r
    ensures |r| <= |s| && r == s[|s| - |r|..]
    ensures |r| == |s| || s[|s| - |r| - 1] == c
  {
    var parts := Split(s, c);
    var r := parts[|parts| - 1];
    JoinSplit(s, c);
    if |parts| >= 2 then JoinLast(parts, [c]); r else r
  }

  /** The last segment after a separator is what follows the last separator. */
  lemma LastSegmentAfter(x: string, c: char, y: string)
    requires c !in y
    ensures LastSegment(x + [c] + y, c) == y
  {
    var s := x + [c] + y;
    var r := LastSegment(s, c);
    assert s[|x|] == c;
    assert forall i :: |x| < i < |s| ==> s[i] == y[i - |x| - 1];
    assert forall i :: 0 <= i < |r| ==> r[i] == s[|s| - |r| + i];
    assert s[|s| - |y|..] == y;
  }

  // ---------------------------------------------------------------- replacing

  /** `s.replace(pat, rep)`: non-overlapping occurrences, left to right. */
  function Replace(s: string, pat: string, rep: string): string
    requires pat != []
    decreases |s|
  {
    if |s| < |pat| then s
    else if s[..|pat|] == pat then rep + Replace(s[|pat|..], pat, rep)
    else [s[0]] + Replace(s[1..], pat, rep)
  }

  /** Replacing a single character by text without it removes every occurrence of it. */
  lemma {:induction false} ReplaceRemovesChar(s: string, ch: char, rep: string)
    requires ch !in rep
    ensures ch !in Replace(s, [ch], rep)
    decreases |s|
  {
    if |s| >= 1 {
      ReplaceRemovesChar(s[1..], ch, rep);
      if s[..1] != [ch] {
        assert s[0] != ch;
      }
    }
  }

  predicate NotQuote(ch: char) { ch != '"' }

  /** Deleting every `"` keeps the other characters, in order. */
  lemma {:induction false} RemoveQuotes(s: string)
    ensures Replace(s, "\"", "") == Filter(s, NotQuote)
    decreases |s|
  {
    if |s| >= 1 {
      RemoveQuotes(s[1..]);
      assert s == [s[0]] + s[1..];
      assert s[..1] == [s[0]];
    }
  }

  /** Replacing one character by one other keeps the length and changes exactly the
      occurrences of that character. */
  lemma {:induction false} ReplaceChar(s: string, a: char, b: char)
    ensures |Replace(s, [a], [b])| == |s|
    ensures forall i :: 0 <= i < |s| ==> Replace(s, [a], [b])[i] == if s[i] == a then b else s[i]
    decreases |s|
  {
    if |s| >= 1 {
      ReplaceChar(s[1..], a, b);
      var r := Replace(s, [a], [b]);
      assert r == [if s[0] == a then b else s[0]] + Replace(s[1..], [a], [b]);
    }
  }

  // ---------------------------------------------------------------- code fences

  const Fence: string := "```"

  /** The number of back-ticks `s` starts with. */
  function LeadingTicks(s: string): (n: nat)
    ensures n <= |s|
  {
    if s != [] && s[0] == '`' then 1 + LeadingTicks(s[1..]) else 0
  }

  lemma {:induction false} FenceAtStartNeedsTicks(s: string)
    requires OccursAt(s, Fence, 0)
    ensures LeadingTicks(s) >= 3
  {
    assert s[..3] == Fence;
    assert s[0] == '`' && s[1] == '`' && s[2] == '`';
    var t1 := s[1..];
    var t2 := t1[1..];
    assert t1[0] == '`' && t2[0] == '`';
    assert LeadingTicks(t2) >= 1;
  }

  /** Removing every fence (`s.replace("```", "")`) leaves fewer than three leading
      back-ticks and no fence anywhere: leftover ticks of one run never join another. */
  lemma {:induction false} RemoveFencesLeavesNone(s: string)
    ensures LeadingTicks(Replace(s, Fence, "")) == LeadingTicks(s) % 3
    ensures !Contains(Replace(s, Fence, ""), Fence)
    decreases |s|
  {
    var r := Replace(s, Fence, "");
    if |s| < 3 {
      assert r == s;
      ShortNotContains(s, Fence);
    } else if s[..3] == Fence {
      RemoveFencesLeavesNone(s[3..]);
      FenceTicks(s);
      assert r == Replace(s[3..], Fence, "");
      var n := LeadingTicks(s[3..]);
      assert (3 + n) % 3 == n % 3;
    } else {
      var t := s[1..];
      RemoveFencesLeavesNone(t);
      assert r == [s[0]] + Replace(t, Fence, "");
      if s[0] == '`' {
        ShortTickRun(s);
        assert LeadingTicks(t) % 3 == LeadingTicks(t);
        assert LeadingTicks(s) == 1 + LeadingTicks(t) < 3;
      }
      ConsNoFence(s[0], Replace(t, Fence, ""));
    }
  }

  /** A fence contributes three leading ticks. */
  lemma FenceTicks(s: string)
    requires |s| >= 3 && s[..3] == Fence
    ensures LeadingTicks(s) == 3 + LeadingTicks(s[3..])
  {
    assert s[..3][0] == s[0] && s[..3][1] == s[1] && s[..3][2] == s[2];
    var t1 := s[1..];
    var t2 := t1[1..];
    assert t2[1..] == s[3..];
    assert t2[0] == s[2] == '`';
    assert LeadingTicks(t2) == 1 + LeadingTicks(s[3..]);
    assert t1[0] == s[1] == '`';
    assert LeadingTicks(t1) == 2 + LeadingTicks(s[3..]);
  }

  /** A string that starts with a tick but not with a fence has at most one more tick
      after the first. */
  lemma ShortTickRun(s: string)
    requires |s| >= 3 && s[..3] != Fence && s[0] == '`'
    ensures LeadingTicks(s[1..]) <= 1
  {
    var t := s[1..];
    assert s[..3] == [s[0], s[1], s[2]];
    if s[1] != '`' {
      assert LeadingTicks(t) == 0;
    } else {
      assert s[2] != '`';
      assert t[1..][0] != '`';
      assert LeadingTicks(t) == 1;
    }
  }

  /** One character in front of a fence-free string makes a fence only when it is a tick
      and the string starts with two more. */
  lemma ConsNoFence(c: char, rt: string)
    requires !Contains(rt, Fence)
    requires c == '`' ==> LeadingTicks(rt) <= 1
    ensures !Contains([c] + rt, Fence)
    ensures LeadingTicks([c] + rt) == if c == '`' then 1 + LeadingTicks(rt) else 0
  {
    var r := [c] + rt;
    assert r[1..] == rt;
    forall i | 0 <= i <= |r| - 3
      ensures !OccursAt(r, Fence, i)
    {
      if i == 0 {
        if OccursAt(r, Fence, 0) {
          FenceAtStartNeedsTicks(r);
        }
      } else {
        assert r[i..i + 3] == rt[i - 1..i - 1 + 3];
        assert !OccursAt(rt, Fence, i - 1);
      }
    }
  }

  /** Stripping a fence-free string leaves it fence-free. */
  lemma StripKeepsNoFence(s: string)
    requires !Contains(s, Fence)
    ensures !Contains(Strip(s), Fence)
  {
    var a, b := TrimIsSlice(s, Whitespace);
    SliceKeepsNoFence(s, a, b);
  }

  /** A slice of a fence-free string is fence-free. */
  lemma SliceKeepsNoFence(s: string, a: int, b: int)
    requires 0 <= a <= b <= |s|
    requires !Contains(s, Fence)
    ensures !Contains(s[a..b], Fence)
  {
    forall i | 0 <= i <= |s[a..b]| - 3
      ensures !OccursAt(s[a..b], Fence, i)
    {
      if OccursAt(s[a..b], Fence, i) {
        var n := |Fence|;
        assert a + i + n <= b;
        var u, v := s[a + i..a + i + n], s[a..b][i..i + n];
        forall k | 0 <= k < n
          ensures u[k] == v[k]
        {
          assert v[k] == s[a..b][i + k] == s[a + i + k];
        }
        assert u == v;
        assert OccursAt(s, Fence, a + i);
      }
    }
  }

  // ---------------------------------------------------------------- title case

  /** `s.title()` given whether the previous character was a letter: a letter that starts
      a word is upper-cased, every other letter lower-cased, and the rest is kept. */
  function TitleFrom(s: string, afterLetter: bool): (r: string)
    ensures |r| == |s|
    ensures forall i :: 0 <= i < |s| ==> LowerChar(r[i]) == LowerChar(s[i])
    ensures forall i :: 0 <= i < |s| ==> (IsLetter(r[i]) <==> IsLetter(s[i]))
    ensures forall i :: 0 <= i < |s| && !IsLetter(s[i]) ==> r[i] == s[i]
    ensures forall i :: 0 <= i < |s| && IsLetter(s[i]) ==>
              (IsUpper(r[i]) <==> (if i == 0 then !afterLetter else !IsLetter(s[i - 1])))
  {
    if s == [] then []
    else
      var ch := if !IsLetter(s[0]) then s[0] else if afterLetter then LowerChar(s[0]) else UpperChar(s[0]);
      [ch] + TitleFrom(s[1..], IsLetter(s[0]))
  }

  /** `s.title()`. */
  function Title(s: string): string {
    TitleFrom(s, false)
  }

  // ---------------------------------------------------------------- file names

  predicate IsNameChar(ch: char) { IsAlnum(ch) || ch == '-' || ch == '_' }

  /** `"".join(c for c in name if c.isalnum() or c in ("-", "_")).rstrip()`: the trailing
      `.rstrip()` finds no whitespace to remove, so the name keeps exactly the name
      characters. */
  function SafeName(name: string): (r: string)
    ensures r == Filter(name, IsNameChar)
  {
    var kept := Filter(name, IsNameChar);
    assert forall i :: 0 <= i < |kept| ==> kept[i] !in Whitespace by {
      forall i | 0 <= i < |kept| ensures kept[i] !in Whitespace {
        assert IsNameChar(kept[i]);
      }
    }
    TrimRightNoop(kept, Whitespace);
    TrimRight(kept, Whitespace)
  }

  /** The safe name holds only name characters, in the order of `name`, and every copy of
      each of them. */
  lemma SafeNameKeeps(name: string)
    ensures forall i :: 0 <= i < |SafeName(name)| ==> IsNameChar(SafeName(name)[i])
    ensures IsSubsequence(SafeName(name), name)
    ensures forall c :: multiset(SafeName(name))[c] == if IsNameChar(c) then multiset(name)[c] else 0
  {
    FilterIsSubsequence(name, IsNameChar);
    FilterCounts(name, IsNameChar);
  }

  /** A name made only of name characters is already safe. */
  lemma SafeNameOfSafe(name: string)
    requires forall i :: 0 <= i < |name| ==> IsNameChar(name[i])
    ensures SafeName(name) == name
  {
    FilterKeepsAll(name, IsNameChar);
  }
}
