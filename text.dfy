/** The string operations of Python's `str` that the core uses, restricted to ASCII case mapping.
    Strings are `seq<char>`; `Contains` is Python's `in`, `FindFrom` is `str.find`,
    `Strip` is `str.strip()`, `Words` is `str.split()`, `SplitOn` is `str.split(sep)`,
    `ReplaceAll` is `str.replace`. */
module Text {

  /** The ASCII characters Python's `str.isspace` accepts. */
  predicate IsSpace(c: char) {
    c == ' ' || c == '\t' || c == '\n' || c == '\r' || c == '\U{B}' || c == '\U{C}'
    || ('\U{1C}' <= c <= '\U{1F}')
  }

  predicate IsLowerChar(c: char) { 'a' <= c <= 'z' }
  predicate IsUpperChar(c: char) { 'A' <= c <= 'Z' }

  function LowerChar(c: char): char {
    if IsUpperChar(c) then (c as int + 32) as char else c
  }

  function UpperChar(c: char): char {
    if IsLowerChar(c) then (c as int - 32) as char else c
  }

  /** `s.lower()` on ASCII letters; every other character is kept. */
  function Lower(s: string): (r: string)
    ensures |r| == |s|
    ensures forall i :: 0 <= i < |s| ==> r[i] == LowerChar(s[i])
  {
    seq(|s|, i requires 0 <= i < |s| => LowerChar(s[i]))
  }

  /** `s.upper()` on ASCII letters; every other character is kept. */
  function Upper(s: string): (r: string)
    ensures |r| == |s|
    ensures forall i :: 0 <= i < |s| ==> r[i] == UpperChar(s[i])
  {
    seq(|s|, i requires 0 <= i < |s| => UpperChar(s[i]))
  }

  lemma UpperSlice(s: string, i: nat, j: nat)
    requires i <= j <= |s|
    ensures Upper(s)[i..j] == Upper(s[i..j])
  {
  }

  /** `s.isupper()`: at least one cased character and no lower-case one. */
  predicate IsUpper(s: string) {
    (exists i :: 0 <= i < |s| && IsUpperChar(s[i]))
    && (forall i :: 0 <= i < |s| ==> !IsLowerChar(s[i]))
  }

  /** `p` occurs in `s` starting at index `i`. */
  predicate OccursAt(s: string, p: string, i: int) {
    0 <= i && i + |p| <= |s| && s[i..i + |p|] == p
  }

  /** Python's `p in s`. */
  predicate Contains(s: string, p: string) {
    exists i :: 0 <= i <= |s| - |p| && OccursAt(s, p, i)
  }

  lemma ContainsAt(s: string, p: string, i: int)
    requires OccursAt(s, p, i)
    ensures Contains(s, p)
  {
  }

  lemma ContainsSelf(s: string)
    ensures Contains(s, s)
  {
    assert OccursAt(s, s, 0);
  }

  /** A pattern whose first character is not in `s` does not occur in it. */
  lemma AbsentHead(s: string, p: string)
    requires p != [] && p[0] !in s
    ensures !Contains(s, p)
  {
    forall i | 0 <= i <= |s| - |p| ensures !OccursAt(s, p, i) {
      assert s[i..i + |p|][0] == s[i];
    }
  }

  /** A pattern whose first two characters never stand next to each other in `s` does
      not occur in it. */
  lemma AbsentPair(s: string, p: string)
    requires |p| >= 2
    requires forall i :: 0 <= i < |s| - 1 ==> !(s[i] == p[0] && s[i + 1] == p[1])
    ensures !Contains(s, p)
  {
    forall i | 0 <= i <= |s| - |p| ensures !OccursAt(s, p, i) {
      assert s[i..i + |p|][0] == s[i] && s[i..i + |p|][1] == s[i + 1];
    }
  }

  /** `s.find(p, start)`: the lowest index at or after `start` where `p` occurs, or -1. */
  function FindFrom(s: string, p: string, start: nat): (r: int)
    ensures r == -1 || (start <= r && OccursAt(s, p, r))
    ensures forall i :: start <= i && (r == -1 || i < r) ==> !OccursAt(s, p, i)
    decreases |s| - start
  {
    if start + |p| > |s| then -1
    else if s[start..start + |p|] == p then start
    else FindFrom(s, p, start + 1)
  }

  lemma FindFromContains(s: string, p: string)
    ensures FindFrom(s, p, 0) >= 0 <==> Contains(s, p)
  {
  }

  /** A two-character pattern found in `a + b` lies in `a`, in `b`, or across the seam. */
  lemma ContainsPairInAppend(a: string, b: string, p: string)
    requires |p| == 2 && Contains(a + b, p)
    ensures Contains(a, p) || Contains(b, p)
            || (|a| > 0 && |b| > 0 && a[|a| - 1] == p[0] && b[0] == p[1])
  {
    var s := a + b;
    var i :| 0 <= i <= |s| - 2 && OccursAt(s, p, i);
    assert s[i..i + 2] == p;
    assert s[i] == p[0] && s[i + 1] == p[1];
    if i + 2 <= |a| {
      assert a[i..i + 2] == s[i..i + 2];
      assert OccursAt(a, p, i);
      ContainsAt(a, p, i);
    } else if |a| <= i {
      assert b[i - |a|..i - |a| + 2] == s[i..i + 2];
      assert OccursAt(b, p, i - |a|);
      ContainsAt(b, p, i - |a|);
    }
  }

  // ---------------------------------------------------------------- strip

  /** `s.lstrip()`. */
  function TrimStart(s: string): (r: string)
    ensures |r| <= |s| && r == s[|s| - |r|..]
    ensures r == [] || !IsSpace(r[0])
    ensures forall i :: 0 <= i < |s| - |r| ==> IsSpace(s[i])
  {
    if s == [] || !IsSpace(s[0]) then s else TrimStart(s[1..])
  }

  /** `s.rstrip()`. */
  function TrimEnd(s: string): (r: string)
    ensures |r| <= |s| && r == s[..|r|]
    ensures r == [] || !IsSpace(r[|r| - 1])
    ensures forall i :: |r| <= i < |s| ==> IsSpace(s[i])
  {
    if s == [] || !IsSpace(s[|s| - 1]) then s else TrimEnd(s[..|s| - 1])
  }

  /** `s.strip()`. */
  function Strip(s: string): string {
    TrimEnd(TrimStart(s))
  }

  /** The number of leading whitespace characters `Strip` removes. */
  function LeadingSpaces(s: string): nat {
    |s| - |TrimStart(s)|
  }

  /** `Strip(s)` is the slice of `s` left after dropping its leading and trailing
      whitespace, and it neither starts nor ends with whitespace. */
  lemma StripIsCore(s: string)
    ensures LeadingSpaces(s) + |Strip(s)| <= |s|
    ensures s[LeadingSpaces(s)..LeadingSpaces(s) + |Strip(s)|] == Strip(s)
    ensures forall i :: 0 <= i < LeadingSpaces(s) ==> IsSpace(s[i])
    ensures forall i :: LeadingSpaces(s) + |Strip(s)| <= i < |s| ==> IsSpace(s[i])
    ensures Strip(s) == [] || (!IsSpace(Strip(s)[0]) && !IsSpace(Strip(s)[|Strip(s)| - 1]))
  {
    StripSlice(s);
    StripTrailing(s);
  }

  lemma StripSlice(s: string)
    ensures LeadingSpaces(s) + |Strip(s)| <= |s|
    ensures s[LeadingSpaces(s)..LeadingSpaces(s) + |Strip(s)|] == Strip(s)
  {
    var t := TrimStart(s);
    var a := |s| - |t|;
    assert t == s[a..];
    assert Strip(s) == t[..|Strip(s)|];
  }

  lemma StripTrailing(s: string)
    ensures forall i :: LeadingSpaces(s) + |Strip(s)| <= i < |s| ==> IsSpace(s[i])
  {
    var t := TrimStart(s);
    var r := TrimEnd(t);
    var a := |s| - |t|;
    assert t == s[a..];
    forall i | a + |r| <= i < |s| ensures IsSpace(s[i]) {
      assert s[i] == t[i - a];
    }
  }

  // ---------------------------------------------------------------- split()

  /** The longest prefix of `s` holding no whitespace. */
  function LeadingWord(s: string): (w: string)
    ensures |w| <= |s| && w == s[..|w|]
    ensures forall i :: 0 <= i < |w| ==> !IsSpace(s[i])
    ensures |w| == |s| || IsSpace(s[|w|])
    ensures s != [] && !IsSpace(s[0]) ==> |w| >= 1
  {
    if s == [] || IsSpace(s[0]) then [] else [s[0]] + LeadingWord(s[1..])
  }

  /** `s.split()`: the maximal runs of non-whitespace characters, in order. */
  function Words(s: string): seq<string>
    decreases |s|
  {
    var t := TrimStart(s);
    if t == [] then []
    else
      var w := LeadingWord(t);
      [w] + Words(t[|w|..])
  }

  predicate NoSpace(w: string) {
    forall i :: 0 <= i < |w| ==> !IsSpace(w[i])
  }

  /** Every piece is non-empty and free of whitespace. */
  predicate AllWords(ws: seq<string>) {
    forall k :: 0 <= k < |ws| ==> ws[k] != [] && NoSpace(ws[k])
  }

  /** Every piece `split()` returns is non-empty and free of whitespace. */
  lemma {:induction false} WordsAreWords(s: string)
    ensures AllWords(Words(s))
    decreases |s|
  {
    var t := TrimStart(s);
    if t != [] {
      var w := LeadingWord(t);
      LeadingWordIsWord(t);
      WordsAreWords(t[|w|..]);
      AllWordsCons(w, Words(t[|w|..]));
    }
  }

  lemma LeadingWordIsWord(t: string)
    requires t != [] && !IsSpace(t[0])
    ensures LeadingWord(t) != [] && NoSpace(LeadingWord(t))
  {
    var w := LeadingWord(t);
    forall i | 0 <= i < |w| ensures !IsSpace(w[i]) {
      assert w[i] == t[i];
    }
  }

  lemma AllWordsCons(w: string, rest: seq<string>)
    requires w != [] && NoSpace(w) && AllWords(rest)
    ensures AllWords([w] + rest)
  {
    forall k | 0 <= k < |[w] + rest| ensures ([w] + rest)[k] != [] && NoSpace(([w] + rest)[k]) {
      if k > 0 {
        assert ([w] + rest)[k] == rest[k - 1];
      }
    }
  }

  lemma ContainsTrans(a: string, b: string, c: string)
    requires Contains(a, b) && Contains(b, c)
    ensures Contains(a, c)
  {
    var i :| 0 <= i <= |a| - |b| && OccursAt(a, b, i);
    var j :| 0 <= j <= |b| - |c| && OccursAt(b, c, j);
    forall k | 0 <= k < |c| ensures a[i + j + k] == c[k] {
      assert a[i..i + |b|][j + k] == a[i + j + k];
      assert b[j..j + |c|][k] == b[j + k];
    }
    assert a[i + j..i + j + |c|] == c;
    assert OccursAt(a, c, i + j);
  }

  lemma ContainsSuffix(s: string, k: nat, p: string)
    requires k <= |s| && Contains(s[k..], p)
    ensures Contains(s, p)
  {
    var j :| 0 <= j <= |s[k..]| - |p| && OccursAt(s[k..], p, j);
    assert s[k + j..k + j + |p|] == s[k..][j..j + |p|];
    assert OccursAt(s, p, k + j);
  }

  /** Every one of `ws` occurs in `s`. */
  predicate AllOccurIn(ws: seq<string>, s: string) {
    ws == [] || (Contains(s, ws[0]) && AllOccurIn(ws[1..], s))
  }

  lemma {:induction false} AllOccurInSuffix(ws: seq<string>, s: string, n: nat, suffix: string)
    requires n <= |s| && suffix == s[n..] && AllOccurIn(ws, suffix)
    ensures AllOccurIn(ws, s)
  {
    if ws != [] {
      ContainsSuffix(s, n, ws[0]);
      AllOccurInSuffix(ws[1..], s, n, suffix);
    }
  }

  lemma {:induction false} AllOccurInMember(ws: seq<string>, s: string, w: string)
    requires AllOccurIn(ws, s) && w in ws
    ensures Contains(s, w)
  {
    if ws[0] != w {
      AllOccurInMember(ws[1..], s, w);
    }
  }

  lemma LeadingWordOccurs(s: string, t: string, w: string, k: int)
    requires t == TrimStart(s) && t != [] && w == LeadingWord(t) && k == |s| - |t|
    ensures OccursAt(s, w, k) && k + |w| <= |s| && t[|w|..] == s[k + |w|..]
  {
    PrefixOfSuffix(s, t, w, k);
  }

  /** A prefix `w` of the suffix `t` of `s` starting at `k` occurs in `s` at `k`. */
  lemma PrefixOfSuffix(s: string, t: string, w: string, k: int)
    requires 0 <= k <= |s| && t == s[k..] && |w| <= |t| && w == t[..|w|]
    ensures OccursAt(s, w, k) && k + |w| <= |s| && t[|w|..] == s[k + |w|..]
  {
    assert s[k..k + |w|] == s[k..][..|w|];
    assert s[k..][|w|..] == s[k + |w|..];
  }

  lemma AllOccurInCons(s: string, w: string, ws: seq<string>)
    requires Contains(s, w) && AllOccurIn(ws, s)
    ensures AllOccurIn([w] + ws, s)
  {
    assert ([w] + ws)[1..] == ws;
  }

  lemma WordsOccurStep(s: string, t: string, w: string, k: int, rest: string)
    requires t == TrimStart(s) && t != [] && w == LeadingWord(t) && k == |s| - |t| && rest == t[|w|..]
    requires AllOccurIn(Words(rest), rest)
    ensures AllOccurIn(Words(s), s)
  {
    LeadingWordOccurs(s, t, w, k);
    OccurStep(s, w, k, rest, Words(rest));
    WordsCons(s, t, w, rest);
  }

  /** A word occurring at `k`, followed by pieces that all occur after it: all occur in `s`. */
  lemma OccurStep(s: string, w: string, k: int, rest: string, ws: seq<string>)
    requires 0 <= k && k + |w| <= |s| && OccursAt(s, w, k)
    requires rest == s[k + |w|..] && AllOccurIn(ws, rest)
    ensures AllOccurIn([w] + ws, s)
  {
    ContainsAt(s, w, k);
    AllOccurInSuffix(ws, s, k + |w|, rest);
    AllOccurInCons(s, w, ws);
  }

  /** The words of `s` are its leading word, then the words after it. */
  lemma WordsCons(s: string, t: string, w: string, rest: string)
    requires t == TrimStart(s) && t != [] && w == LeadingWord(t) && rest == t[|w|..]
    ensures Words(s) == [w] + Words(rest)
  {
  }

  /** Every word of `s` occurs in `s`. */
  lemma {:induction false} WordsOccur(s: string)
    ensures AllOccurIn(Words(s), s)
    decreases |s|
  {
    var t := TrimStart(s);
    if t != [] {
      var w := LeadingWord(t);
      WordsOccur(t[|w|..]);
      WordsOccurStep(s, t, w, |s| - |t|, t[|w|..]);
    }
  }

  /** Every word of a text that occurs in `s` occurs in `s` too. */
  lemma WordsOfContained(s: string, q: string)
    requires Contains(s, q)
    ensures forall w :: w in Words(q) ==> Contains(s, w)
  {
    WordsOccur(q);
    forall w | w in Words(q) ensures Contains(s, w) {
      AllOccurInMember(Words(q), q, w);
      ContainsTrans(s, q, w);
    }
  }

  /** The characters of `s` that are not whitespace. */
  function Visible(s: string): string {
    if s == [] then []
    else (if IsSpace(s[0]) then [] else [s[0]]) + Visible(s[1..])
  }

  function Concat(ws: seq<string>): string {
    if ws == [] then [] else ws[0] + Concat(ws[1..])
  }

  lemma VisibleAppend(a: string, b: string)
    ensures Visible(a + b) == Visible(a) + Visible(b)
  {
    if a == [] {
      assert a + b == b;
    } else {
      assert (a + b)[0] == a[0];
      assert (a + b)[1..] == a[1..] + b;
      VisibleAppend(a[1..], b);
    }
  }

  lemma VisibleOfSpaces(s: string)
    requires forall i :: 0 <= i < |s| ==> IsSpace(s[i])
    ensures Visible(s) == []
  {
    if s != [] {
      VisibleOfSpaces(s[1..]);
    }
  }

  lemma VisibleOfWord(s: string)
    requires NoSpace(s)
    ensures Visible(s) == s
  {
    if s != [] {
      VisibleOfWord(s[1..]);
    }
  }

  lemma VisibleTrimStart(s: string)
    ensures Visible(s) == Visible(TrimStart(s))
  {
    var t := TrimStart(s);
    var lead := s[..|s| - |t|];
    assert s == lead + t;
    VisibleOfSpaces(lead);
    VisibleAppend(lead, t);
  }

  lemma VisibleLeadingWord(t: string)
    ensures Visible(t) == LeadingWord(t) + Visible(t[|LeadingWord(t)|..])
  {
    var w := LeadingWord(t);
    assert t == w + t[|w|..];
    VisibleAppend(w, t[|w|..]);
    assert NoSpace(w) by {
      forall i | 0 <= i < |w| ensures !IsSpace(w[i]) {
        assert w[i] == t[i];
      }
    }
    VisibleOfWord(w);
  }

  /** Joining the words of `s` gives back `s` with its whitespace removed:
      `split()` loses exactly the whitespace and nothing else. */
  lemma {:induction false} WordsKeepVisible(s: string)
    ensures Concat(Words(s)) == Visible(s)
    decreases |s|
  {
    var t := TrimStart(s);
    VisibleTrimStart(s);
    if t != [] {
      var w := LeadingWord(t);
      var rest := t[|w|..];
      assert Words(s) == [w] + Words(rest);
      assert Concat([w] + Words(rest)) == w + Concat(Words(rest));
      VisibleLeadingWord(t);
      WordsKeepVisible(rest);
    }
  }

  // ---------------------------------------------------------------- split(sep), join

  /** `s.split(sep)` for a one-character separator: the pieces between separators, empty ones kept. */
  function SplitOn(s: string, sep: char): (parts: seq<string>)
    ensures |parts| >= 1
    decreases |s|
  {
    if sep !in s then [s]
    else [s[..IndexOf(s, sep)]] + SplitOn(s[IndexOf(s, sep) + 1..], sep)
  }

  function IndexOf(s: string, c: char): (i: nat)
    requires c in s
    ensures i < |s| && s[i] == c
    ensures forall j :: 0 <= j < i ==> s[j] != c
  {
    if s[0] == c then 0 else 1 + IndexOf(s[1..], c)
  }

  /** `sep.join(parts)`. */
  function Join(sep: string, parts: seq<string>): string {
    if parts == [] then []
    else if |parts| == 1 then parts[0]
    else parts[0] + sep + Join(sep, parts[1..])
  }

  /** Splitting on a separator and joining with it is the identity. */
  lemma {:induction false} JoinSplitOn(s: string, sep: char)
    ensures Join([sep], SplitOn(s, sep)) == s
    decreases |s|
  {
    if sep in s {
      var i := IndexOf(s, sep);
      JoinSplitOn(s[i + 1..], sep);
      SplitCons(s, sep, i);
      JoinSplitStep(s, sep, i, s[..i], s[i + 1..], SplitOn(s[i + 1..], sep));
    }
  }

  /** No piece of a split holds the separator. */
  lemma {:induction false} SplitOnPieces(s: string, sep: char)
    ensures forall k :: 0 <= k < |SplitOn(s, sep)| ==> sep !in SplitOn(s, sep)[k]
    decreases |s|
  {
    if sep in s {
      var i := IndexOf(s, sep);
      var rest := SplitOn(s[i + 1..], sep);
      SplitOnPieces(s[i + 1..], sep);
      SplitCons(s, sep, i);
      forall k | 0 <= k < |[s[..i]] + rest| ensures sep !in ([s[..i]] + rest)[k] {
        if k > 0 {
          assert ([s[..i]] + rest)[k] == rest[k - 1];
        }
      }
    }
  }

  /** The pieces of `s` are the text before its first separator, then the pieces after it. */
  lemma SplitCons(s: string, sep: char, i: nat)
    requires sep in s && i == IndexOf(s, sep)
    ensures SplitOn(s, sep) == [s[..i]] + SplitOn(s[i + 1..], sep)
  {
  }

  /** Joining the text before the separator at `i` to the rejoined pieces after it gives `s`. */
  lemma JoinSplitStep(s: string, sep: char, i: nat, head: string, tail: string, rest: seq<string>)
    requires i < |s| && s[i] == sep && head == s[..i] && tail == s[i + 1..]
    requires rest != [] && Join([sep], rest) == tail
    ensures Join([sep], [head] + rest) == s
  {
    JoinCons([sep], head, rest);
    assert s == head + [sep] + tail;
  }

  lemma JoinCons(sep: string, p: string, rest: seq<string>)
    requires rest != []
    ensures Join(sep, [p] + rest) == p + sep + Join(sep, rest)
  {
    assert ([p] + rest)[1..] == rest;
  }

  // ---------------------------------------------------------------- replace

  /** `s.replace(p, r)` for a non-empty pattern: every non-overlapping occurrence, left to right. */
  function ReplaceAll(s: string, p: string, r: string): string
    requires p != []
    decreases |s|
  {
    if |s| < |p| then s
    else if s[..|p|] == p then r + ReplaceAll(s[|p|..], p, r)
    else [s[0]] + ReplaceAll(s[1..], p, r)
  }

  /** A pattern that does not occur is not replaced. */
  lemma {:induction false} ReplaceAbsent(s: string, p: string, r: string)
    requires p != [] && !Contains(s, p)
    ensures ReplaceAll(s, p, r) == s
    decreases |s|
  {
    if |s| >= |p| {
      if s[..|p|] == p {
        assert OccursAt(s, p, 0);
        ContainsAt(s, p, 0);
      } else {
        if Contains(s[1..], p) {
          var i :| 0 <= i <= |s[1..]| - |p| && OccursAt(s[1..], p, i);
          assert s[i + 1..i + 1 + |p|] == s[1..][i..i + |p|];
          assert OccursAt(s, p, i + 1);
          ContainsAt(s, p, i + 1);
        }
        ReplaceAbsent(s[1..], p, r);
      }
    }
  }

  /** A text that starts with the pattern and holds it nowhere else has only that
      occurrence replaced. */
  lemma ReplaceHeadOnly(s: string, p: string, r: string)
    requires p != [] && |p| <= |s| && s[..|p|] == p && !Contains(s[|p|..], p)
    ensures ReplaceAll(s, p, r) == r + s[|p|..]
  {
    ReplaceAbsent(s[|p|..], p, r);
  }

  lemma ReplaceAllHead(s: string, p: string, r: string)
    requires p != [] && s != [] && r != []
    ensures ReplaceAll(s, p, r) != []
    ensures ReplaceAll(s, p, r)[0] == if |s| >= |p| && s[..|p|] == p then r[0] else s[0]
  {
  }

  /** Replacing a two-character pattern by a text that neither contains it nor can
      complete it across a seam leaves no occurrence of the pattern. */
  lemma {:induction false} ReplaceAllRemoves(s: string, p: string, r: string)
    requires |p| == 2 && r != [] && !Contains(r, p)
    requires r[|r| - 1] != p[0] && r[0] != p[1]
    ensures !Contains(ReplaceAll(s, p, r), p)
    decreases |s|
  {
    if |s| < |p| {
    } else if s[..|p|] == p {
      var rest := ReplaceAll(s[|p|..], p, r);
      ReplaceAllRemoves(s[|p|..], p, r);
      if Contains(r + rest, p) {
        ContainsPairInAppend(r, rest, p);
      }
    } else {
      var rest := ReplaceAll(s[1..], p, r);
      ReplaceAllRemoves(s[1..], p, r);
      if Contains([s[0]] + rest, p) {
        ContainsPairInAppend([s[0]], rest, p);
        assert s[0] == p[0] && rest[0] == p[1];
        ReplaceAllHead(s[1..], p, r);
        assert false;
      }
    }
  }
}
