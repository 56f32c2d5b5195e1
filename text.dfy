/**
 * String primitives with the meaning of the Python `str` operations that the
 * application relies on: whitespace tests, `strip`, `find`/`rfind`, slicing,
 * `split(sep)`, `sep.join(parts)`, `replace`, `lower` and `split()` word counts.
 */
module Text {

  datatype Option<T> = None | Some(value: T)

  /** Python's `str.isspace()` for one character: the whitespace set that
      `strip()` and `split()` use. */
  predicate IsSpace(c: char)
  {
    var n := c as int;
    (9 <= n <= 13) || (28 <= n <= 32) || n == 0x85 || n == 0xA0 || n == 0x1680
    || (0x2000 <= n <= 0x200A) || n == 0x2028 || n == 0x2029 || n == 0x202F
    || n == 0x205F || n == 0x3000
  }

  /** `not s.strip()`: the string is empty or holds whitespace only. */
  predicate IsBlank(s: string)
  {
    forall i :: 0 <= i < |s| ==> IsSpace(s[i])
  }

  lemma {:induction false} BlankConcat(a: string, b: string)
    ensures IsBlank(a + b) <==> IsBlank(a) && IsBlank(b)
  {
    if IsBlank(a) && IsBlank(b) {
      forall i | 0 <= i < |a + b| ensures IsSpace((a + b)[i]) {
        if i < |a| { assert (a + b)[i] == a[i]; } else { assert (a + b)[i] == b[i - |a|]; }
      }
    }
    if IsBlank(a + b) {
      forall i | 0 <= i < |a| ensures IsSpace(a[i]) { assert (a + b)[i] == a[i]; }
      forall i | 0 <= i < |b| ensures IsSpace(b[i]) { assert (a + b)[|a| + i] == b[i]; }
    }
  }

  /** Removes leading whitespace. */
  function TrimStart(s: string): (r: string)
    ensures |r| <= |s| && r == s[|s| - |r|..]
    ensures r == [] || !IsSpace(r[0])
    ensures IsBlank(s[..|s| - |r|])
  {
    if s != [] && IsSpace(s[0]) then
      var r := TrimStart(s[1..]);
      assert s[..|s| - |r|] == [s[0]] + s[1..][..|s[1..]| - |r|];
      BlankConcat([s[0]], s[1..][..|s[1..]| - |r|]);
      r
    else
      s
  }

  /** Removes trailing whitespace. */
  function TrimEnd(s: string): (r: string)
    ensures |r| <= |s| && r == s[..|r|]
    ensures r == [] || !IsSpace(r[|r| - 1])
    ensures IsBlank(s[|r|..])
  {
    if s != [] && IsSpace(s[|s| - 1]) then
      var r := TrimEnd(s[..|s| - 1]);
      assert s[|r|..] == s[..|s| - 1][|r|..] + [s[|s| - 1]];
      BlankConcat(s[..|s| - 1][|r|..], [s[|s| - 1]]);
      r
    else
      s
  }

  /** `r` is the slice of `s` that starts at `a`, and only whitespace lies
      outside it. */
  predicate StrippedAt(s: string, r: string, a: int)
  {
    0 <= a && a + |r| <= |s| && r == s[a..a + |r|] && IsBlank(s[..a]) && IsBlank(s[a + |r|..])
  }

  /** `r` neither starts nor ends with whitespace. */
  predicate NoOuterSpace(r: string)
  {
    r == [] || (!IsSpace(r[0]) && !IsSpace(r[|r| - 1]))
  }

  /** Python's `s.strip()`: the input with its leading and trailing
      whitespace removed. */
  function Strip(s: string): (r: string)
    ensures |r| <= |s|
    ensures exists a :: StrippedAt(s, r, a)
    ensures NoOuterSpace(r)
    ensures r == "" <==> IsBlank(s)
  {
    var t := TrimStart(s);
    var r := TrimEnd(t);
    StripParts(s, s[..|s| - |t|], t, r);
    r
  }

  /** The whitespace trimmed from both ends does not decide blankness, and
      trimming the end keeps the first character. */
  lemma StripParts(s: string, lead: string, t: string, r: string)
    requires s == lead + t && IsBlank(lead)
    requires t == [] || !IsSpace(t[0])
    requires |r| <= |t| && r == t[..|r|] && IsBlank(t[|r|..])
    requires r == [] || !IsSpace(r[|r| - 1])
    ensures r == "" <==> IsBlank(s)
    ensures NoOuterSpace(r)
    ensures StrippedAt(s, r, |lead|)
  {
    assert s[|lead|..] == t;
    assert s[|lead|..|lead| + |r|] == r;
    assert s[|lead| + |r|..] == t[|r|..];
    BlankConcat(lead, t);
    assert t == r + t[|r|..];
    BlankConcat(r, t[|r|..]);
  }

  /** Python's `s.find(c)` for one character: the first index of `c`, or -1. */
  function Find(s: string, c: char): (r: int)
    ensures -1 <= r < |s|
    ensures r == -1 <==> c !in s
    ensures r >= 0 ==> s[r] == c && c !in s[..r]
  {
    if s == [] then -1
    else if s[0] == c then 0
    else
      var k := Find(s[1..], c);
      if k == -1 then -1
      else
        assert s[..k + 1] == [s[0]] + s[1..][..k];
        k + 1
  }

  /** Python's `s.rfind(c)` for one character: the last index of `c`, or -1. */
  function RFind(s: string, c: char): (r: int)
    ensures -1 <= r < |s|
    ensures r == -1 <==> c !in s
    ensures r >= 0 ==> s[r] == c && c !in s[r + 1..]
  {
    if s == [] then -1
    else if s[|s| - 1] == c then |s| - 1
    else
      var k := RFind(s[..|s| - 1], c);
      assert s == s[..|s| - 1] + [s[|s| - 1]];
      if k >= 0 then assert s[k + 1..] == s[..|s| - 1][k + 1..] + [s[|s| - 1]]; k else k
  }

  /** Python's `s[a:b]` for indices inside the string: empty when `b <= a`. */
  function Slice(s: string, a: nat, b: nat): (r: string)
    requires a <= |s| && b <= |s|
    ensures a < b ==> r == s[a..b]
    ensures b <= a ==> r == ""
  {
    if a < b then s[a..b] else ""
  }

  /** `sub` occurs in `s` starting at index `i`. */
  predicate OccursAt(s: string, sub: string, i: int)
  {
    0 <= i && i + |sub| <= |s| && s[i..i + |sub|] == sub
  }

  /** The first index at or after `from` where `sub` occurs, if any. */
  function IndexFrom(s: string, sub: string, from: nat): (r: Option<nat>)
    requires from <= |s|
    ensures r.Some? ==> from <= r.value && OccursAt(s, sub, r.value)
    ensures r.Some? ==> forall i :: from <= i < r.value ==> !OccursAt(s, sub, i)
    ensures r.None? ==> forall i :: from <= i ==> !OccursAt(s, sub, i)
    decreases |s| - from
  {
    if from + |sub| > |s| then None
    else if s[from..from + |sub|] == sub then Some(from)
    else IndexFrom(s, sub, from + 1)
  }

  /** Python's `sep.join(parts)`. */
  function Join(sep: string, parts: seq<string>): string
  {
    if parts == [] then ""
    else if |parts| == 1 then parts[0]
    else parts[0] + sep + Join(sep, parts[1..])
  }

  /** The joined text holds every character of the parts and one separator
      between each two neighbours. */
  lemma {:induction false} JoinLength(sep: string, parts: seq<string>)
    requires parts != []
    ensures |Join(sep, parts)| == SumLengths(parts) + (|parts| - 1) * |sep|
    decreases |parts|
  {
    if |parts| == 1 {
      assert parts[..0] == [];
    } else {
      assert parts == [parts[0]] + parts[1..];
      SumLengthsConcat([parts[0]], parts[1..]);
      assert SumLengths([parts[0]]) == |parts[0]| by { assert [parts[0]][..0] == []; }
      JoinLength(sep, parts[1..]);
    }
  }

  lemma JoinCons(sep: string, head: string, tail: seq<string>)
    requires tail != []
    ensures Join(sep, [head] + tail) == head + sep + Join(sep, tail)
  {
    assert ([head] + tail)[1..] == tail;
  }

  lemma {:induction false} JoinAppend(sep: string, a: seq<string>, b: seq<string>)
    requires a != [] && b != []
    ensures Join(sep, a + b) == Join(sep, a) + sep + Join(sep, b)
    decreases |a|
  {
    if |a| == 1 {
      assert (a + b)[1..] == b;
    } else {
      assert (a + b)[1..] == a[1..] + b;
      JoinAppend(sep, a[1..], b);
    }
  }

  /** Python's `s.split(sep)` for a non-empty separator: cut at each occurrence,
      scanning left to right without overlaps. */
  function SplitOn(s: string, sep: string): (parts: seq<string>)
    requires |sep| > 0
    ensures |parts| >= 1 && Join(sep, parts) == s
    ensures forall k :: 0 <= k < |parts| - 1 ==> IndexFrom(parts[k] + sep, sep, 0) == Some(|parts[k]|)
    ensures IndexFrom(parts[|parts| - 1], sep, 0).None?
    decreases |s|
  {
    match IndexFrom(s, sep, 0)
    case None => [s]
    case Some(i) =>
      var rest := SplitOn(s[i + |sep|..], sep);
      SplitStep(s, sep, i, rest);
      [s[..i]] + rest
  }

  /** One cut of `SplitOn`: the part before the first separator, followed by
      the parts of the text after it. */
  lemma SplitStep(s: string, sep: string, i: nat, rest: seq<string>)
    requires IndexFrom(s, sep, 0) == Some(i)
    requires |rest| >= 1 && Join(sep, rest) == s[i + |sep|..]
    requires forall k :: 0 <= k < |rest| - 1 ==> IndexFrom(rest[k] + sep, sep, 0) == Some(|rest[k]|)
    requires IndexFrom(rest[|rest| - 1], sep, 0).None?
    ensures var parts := [s[..i]] + rest;
      && |parts| >= 1 && Join(sep, parts) == s
      && (forall k :: 0 <= k < |parts| - 1 ==> IndexFrom(parts[k] + sep, sep, 0) == Some(|parts[k]|))
      && IndexFrom(parts[|parts| - 1], sep, 0).None?
  {
    CutJoin(s, sep, i, rest);
    var parts := [s[..i]] + rest;
    forall k | 0 <= k < |parts| - 1
      ensures IndexFrom(parts[k] + sep, sep, 0) == Some(|parts[k]|)
    {
      if k == 0 { FirstCut(s, sep, i); } else { assert parts[k] == rest[k - 1]; }
    }
    assert parts[|parts| - 1] == rest[|rest| - 1];
  }

  /** Joining the part before a separator occurrence with the parts after
      it gives back the text. */
  lemma CutJoin(s: string, sep: string, i: nat, rest: seq<string>)
    requires OccursAt(s, sep, i)
    requires |rest| >= 1 && Join(sep, rest) == s[i + |sep|..]
    ensures Join(sep, [s[..i]] + rest) == s
  {
    var before, mid, after := s[..i], s[i..], s[i + |sep|..];
    assert s == before + mid;
    assert mid == mid[..|sep|] + after;
    assert mid[..|sep|] == sep;
    JoinCons(sep, before, rest);
  }

  /** Cutting `s` at the first occurrence `i` of `sep`: the part before it,
      followed by `sep`, has its first occurrence at the end of the part. */
  lemma FirstCut(s: string, sep: string, i: nat)
    requires IndexFrom(s, sep, 0) == Some(i)
    ensures IndexFrom(s[..i] + sep, sep, 0) == Some(i)
  {
    var t := s[..i] + sep;
    assert t == s[..i + |sep|];
    forall j | 0 <= j < i ensures !OccursAt(t, sep, j) {
      assert !OccursAt(s, sep, j);
      assert t[j..j + |sep|] == s[j..j + |sep|];
    }
    assert OccursAt(t, sep, i) by { assert t[i..i + |sep|] == sep; }
    IndexFromFirst(t, sep, i);
  }

  /** The first occurrence is the only one with no occurrence before it. */
  lemma IndexFromFirst(s: string, sub: string, i: nat)
    requires OccursAt(s, sub, i)
    requires forall j :: 0 <= j < i ==> !OccursAt(s, sub, j)
    ensures IndexFrom(s, sub, 0) == Some(i)
  {
  }

  /** The total number of characters in `parts` (separators not counted). */
  function SumLengths(parts: seq<string>): nat
  {
    if parts == [] then 0 else SumLengths(parts[..|parts| - 1]) + |parts[|parts| - 1]|
  }

  lemma {:induction false} SumLengthsConcat(a: seq<string>, b: seq<string>)
    ensures SumLengths(a + b) == SumLengths(a) + SumLengths(b)
    decreases |b|
  {
    if b == [] {
      assert a + b == a;
    } else {
      assert (a + b)[..|a + b| - 1] == a + b[..|b| - 1];
      SumLengthsConcat(a, b[..|b| - 1]);
    }
  }

  /** Python's `s.replace(a, b)` for single characters. */
  function ReplaceChar(s: string, a: char, b: char): (r: string)
    ensures |r| == |s|
    ensures forall i :: 0 <= i < |s| ==> r[i] == (if s[i] == a then b else s[i])
  {
    seq(|s|, i requires 0 <= i < |s| => if s[i] == a then b else s[i])
  }

  /** `str.lower()` on one character, for the ASCII letters. */
  function ToLowerChar(c: char): char
  {
    if 'A' <= c <= 'Z' then (c as int + 32) as char else c
  }

  /** `str.lower()` restricted to ASCII letters. */
  function ToLower(s: string): (r: string)
    ensures |r| == |s|
    ensures forall i :: 0 <= i < |s| ==> r[i] == ToLowerChar(s[i])
  {
    seq(|s|, i requires 0 <= i < |s| => ToLowerChar(s[i]))
  }

  /** Number of whitespace-delimited words, that is `len(s.split())`;
      `inWord` says whether the character before `s` belongs to a word. */
  function WordsFrom(s: string, inWord: bool): nat
  {
    if s == [] then 0
    else if IsSpace(s[0]) then WordsFrom(s[1..], false)
    else (if inWord then 0 else 1) + WordsFrom(s[1..], true)
  }

  /** `len(s.split())`, which is zero exactly when `s` is blank. */
  function WordCount(s: string): (n: nat)
    ensures n == 0 <==> IsBlank(s)
  {
    if IsBlank(s) then BlankHasNoWords(s, false); WordsFrom(s, false)
    else NonBlankHasWord(s); WordsFrom(s, false)
  }

  /** A whitespace character separates words: the words on either side of it
      add up. */
  lemma WordCountSplit(a: string, c: char, b: string)
    requires IsSpace(c)
    ensures WordCount(a + [c] + b) == WordCount(a) + WordCount(b)
  {
    WordsAcrossSpace(a, c, b, false);
  }

  lemma {:induction false} WordsAcrossSpace(a: string, c: char, b: string, inWord: bool)
    requires IsSpace(c)
    ensures WordsFrom(a + [c] + b, inWord) == WordsFrom(a, inWord) + WordsFrom(b, false)
    decreases |a|
  {
    if a == [] {
      assert a + [c] + b == [c] + b;
      assert ([c] + b)[1..] == b;
    } else {
      assert (a + [c] + b)[0] == a[0];
      assert (a + [c] + b)[1..] == a[1..] + [c] + b;
      WordsAcrossSpace(a[1..], c, b, !IsSpace(a[0]));
    }
  }

  /** A non-empty run of characters other than whitespace is one word. */
  lemma WordCountOfWord(w: string)
    requires w != [] && forall i :: 0 <= i < |w| ==> !IsSpace(w[i])
    ensures WordCount(w) == 1
  {
    InsideWord(w[1..]);
  }

  lemma {:induction false} InsideWord(w: string)
    requires forall i :: 0 <= i < |w| ==> !IsSpace(w[i])
    ensures WordsFrom(w, true) == 0
  {
    if w != [] {
      assert forall i :: 0 <= i < |w[1..]| ==> w[1..][i] == w[i + 1];
      InsideWord(w[1..]);
    }
  }

  lemma {:induction false} BlankHasNoWords(s: string, inWord: bool)
    requires IsBlank(s)
    ensures WordsFrom(s, inWord) == 0
  {
    if s != [] {
      assert IsSpace(s[0]);
      BlankHasNoWords(s[1..], false);
    }
  }

  lemma {:induction false} NonBlankHasWord(s: string)
    requires !IsBlank(s)
    ensures WordsFrom(s, false) >= 1
  {
    if IsSpace(s[0]) {
      assert !IsBlank(s[1..]) by {
        var i :| 0 <= i < |s| && !IsSpace(s[i]);
        assert s[1..][i - 1] == s[i];
      }
      NonBlankHasWord(s[1..]);
    }
  }
}
