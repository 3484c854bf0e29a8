/**
 The string primitives the server leans on, as JavaScript defines them:
 `trim`, `split` / `join` on one separator, `includes`, `endsWith`,
 `toLowerCase` (restricted to ASCII) and the decimal rendering used when a
 number is interpolated into a template string.
 */
module Text {

  /** The code points `String.prototype.trim` removes: ECMAScript WhiteSpace and LineTerminator. */
  predicate IsSpace(c: char) {
    || c == '\t' || c == '\n' || c == '\U{000B}' || c == '\U{000C}' || c == '\r' || c == ' '
    || c == '\U{00A0}' || c == '\U{1680}' || ('\U{2000}' <= c <= '\U{200A}')
    || c == '\U{2028}' || c == '\U{2029}' || c == '\U{202F}' || c == '\U{205F}'
    || c == '\U{3000}' || c == '\U{FEFF}'
  }

  /** A string whose `trim()` is falsy: nothing but white space. */
  predicate Blank(s: string) {
    forall i :: 0 <= i < |s| ==> IsSpace(s[i])
  }

  function TrimStart(s: string): string {
    if |s| > 0 && IsSpace(s[0]) then TrimStart(s[1..]) else s
  }

  /** `TrimStart` drops the leading white space and nothing else. */
  lemma {:induction false} TrimStartSpec(s: string)
    ensures var r := TrimStart(s);
            && |r| <= |s| && r == s[|s| - |r|..]
            && (forall i :: 0 <= i < |s| - |r| ==> IsSpace(s[i]))
            && (r == [] || !IsSpace(r[0]))
  {
    if |s| > 0 && IsSpace(s[0]) {
      var t := s[1..];
      TrimStartSpec(t);
      var r := TrimStart(t);
      assert TrimStart(s) == r;
      assert t[|t| - |r|..] == s[|s| - |r|..];
      assert forall i :: 1 <= i < |s| - |r| ==> s[i] == t[i - 1];
    }
  }

  function TrimEnd(s: string): string {
    if |s| > 0 && IsSpace(s[|s| - 1]) then TrimEnd(s[..|s| - 1]) else s
  }

  /** `TrimEnd` drops the trailing white space and nothing else. */
  lemma {:induction false} TrimEndSpec(s: string)
    ensures var r := TrimEnd(s);
            && |r| <= |s| && r == s[..|r|]
            && (forall i :: |r| <= i < |s| ==> IsSpace(s[i]))
            && (r == [] || !IsSpace(r[|r| - 1]))
  {
    if |s| > 0 && IsSpace(s[|s| - 1]) {
      TrimEndSpec(s[..|s| - 1]);
    }
  }

  /** `r` is `s` with the white space before offset `i` and after `i + |r|` removed. */
  predicate TrimsTo(s: string, r: string, i: int) {
    && 0 <= i <= |s| - |r| && r == s[i..i + |r|]
    && (forall k :: 0 <= k < i ==> IsSpace(s[k]))
    && (forall k :: i + |r| <= k < |s| ==> IsSpace(s[k]))
  }

  /** `s.trim()`: the infix left once leading and trailing white space is gone
      (`TrimIsInfix`); it is empty exactly when `s` is blank, which is what
      `if (line.trim())` tests. */
  function Trim(s: string): (r: string)
    ensures r == [] || (!IsSpace(r[0]) && !IsSpace(r[|r| - 1]))
    ensures r == [] <==> Blank(s)
  {
    var t := TrimStart(s);
    TrimStartSpec(s);
    var r := TrimEnd(t);
    TrimEndSpec(t);
    assert TrimsTo(s, r, |s| - |t|);
    assert r != [] ==> s[|s| - |t|] == r[0];
    r
  }

  /** What `trim()` removes is white space, and only from the two ends. */
  lemma TrimIsInfix(s: string)
    ensures exists i :: TrimsTo(s, Trim(s), i)
  {
    var t := TrimStart(s);
    TrimStartSpec(s);
    TrimEndSpec(t);
    assert Trim(s) == TrimEnd(t);
    assert TrimsTo(s, TrimEnd(t), |s| - |t|);
  }

  /** Trimming adds no character: one absent from `s` is absent from `trim(s)`. */
  lemma TrimKeepsAbsent(s: string, c: char)
    requires c !in s
    ensures c !in Trim(s)
  {
    TrimIsInfix(s);
    var i :| TrimsTo(s, Trim(s), i);
    assert Trim(s) == s[i..i + |Trim(s)|];
  }

  /** A string that neither starts nor ends with white space trims to itself. */
  lemma TrimUnpadded(s: string)
    requires |s| > 0 && !IsSpace(s[0]) && !IsSpace(s[|s| - 1])
    ensures Trim(s) == s
  {
    assert TrimStart(s) == s;
  }

  /** `toLowerCase`, on the ASCII letters only. */
  function LowerChar(c: char): char {
    if 'A' <= c <= 'Z' then (c as int + 32) as char else c
  }

  function Lower(s: string): (r: string)
    ensures |r| == |s|
  {
    seq(|s|, i requires 0 <= i < |s| => LowerChar(s[i]))
  }

  /** `s.includes(q)`, scanning the offsets from `i` on. */
  predicate ContainsFrom(s: string, q: string, i: nat)
    decreases |s| - i
  {
    i + |q| <= |s| && (s[i..i + |q|] == q || ContainsFrom(s, q, i + 1))
  }

  /** `s.includes(q)` (`ContainsSpec`). */
  predicate Contains(s: string, q: string)
    ensures Contains(s, q) ==> |q| <= |s|
    ensures q == [] ==> Contains(s, q)
  {
    ContainsFrom(s, q, 0)
  }

  lemma {:induction false} ContainsFromSpec(s: string, q: string, i: nat)
    ensures ContainsFrom(s, q, i) <==> exists j :: i <= j && OccursAt(s, q, j)
    decreases |s| - i
  {
    if i + |q| <= |s| {
      ContainsFromSpec(s, q, i + 1);
      if s[i..i + |q|] == q {
        assert OccursAt(s, q, i);
      } else if exists j :: i <= j && OccursAt(s, q, j) {
        var j :| i <= j && OccursAt(s, q, j);
        assert j != i;
      }
    }
  }

  /** `q` occurs in `s` at some offset; the empty string occurs everywhere. */
  lemma ContainsSpec(s: string, q: string)
    ensures Contains(s, q) <==> exists i :: OccursAt(s, q, i)
  {
    ContainsFromSpec(s, q, 0);
    if exists i :: OccursAt(s, q, i) {
      var i :| OccursAt(s, q, i);
      assert 0 <= i;
    }
  }

  predicate OccursAt(s: string, q: string, i: int) {
    0 <= i <= |s| - |q| && s[i..i + |q|] == q
  }

  /** `s.endsWith(suffix)`. */
  predicate EndsWith(s: string, suffix: string)
    ensures EndsWith(s, suffix) ==> |suffix| <= |s| && s == s[..|s| - |suffix|] + suffix
    ensures suffix == [] ==> EndsWith(s, suffix)
  {
    |suffix| <= |s| && s[|s| - |suffix|..] == suffix
  }

  function IndexOf(s: string, c: char): (i: nat)
    requires c in s
    ensures i < |s| && s[i] == c && c !in s[..i]
  {
    if s[0] == c then 0 else 1 + IndexOf(s[1..], c)
  }

  /** `s.split(sep)` for a one-character separator: never empty, and no piece holds `sep`
      (`SplitPiecesLackSeparator`). */
  function Split(s: string, sep: char): (r: seq<string>)
    ensures |r| >= 1
    decreases |s|
  {
    if sep in s then
      var i := IndexOf(s, sep);
      [s[..i]] + Split(s[i + 1..], sep)
    else
      [s]
  }

  lemma {:induction false} SplitPiecesLackSeparator(s: string, sep: char)
    ensures forall k :: 0 <= k < |Split(s, sep)| ==> sep !in Split(s, sep)[k]
    decreases |s|
  {
    if sep in s {
      var i := IndexOf(s, sep);
      SplitPiecesLackSeparator(s[i + 1..], sep);
      assert Split(s, sep) == [s[..i]] + Split(s[i + 1..], sep);
    }
  }

  /** `IndexOf` is the position of the first occurrence. */
  lemma IndexOfUnique(s: string, c: char, j: nat)
    requires j < |s| && s[j] == c && c !in s[..j]
    ensures IndexOf(s, c) == j
  {
  }

  /** The first piece of a split ends at the first separator. */
  lemma SplitAt(s: string, sep: char, j: nat)
    requires j < |s| && s[j] == sep && sep !in s[..j]
    ensures Split(s, sep) == [s[..j]] + Split(s[j + 1..], sep)
  {
    IndexOfUnique(s, sep, j);
  }

  /** Splitting at a separator placed between two strings splits each of them. */
  lemma {:induction false} SplitConcat(a: string, b: string, sep: char)
    ensures Split(a + [sep] + b, sep) == Split(a, sep) + Split(b, sep)
    decreases |a|
  {
    if sep in a {
      var i := IndexOf(a, sep);
      var rest := a[i + 1..];
      SplitConcatStep(a, b, sep, i);
      SplitConcat(rest, b, sep);
      assert Split(a + [sep] + b, sep) == [a[..i]] + (Split(rest, sep) + Split(b, sep));
      SeqAssoc([a[..i]], Split(rest, sep), Split(b, sep));
    } else {
      SplitConcatLast(a, b, sep);
    }
  }

  lemma SeqAssoc<T>(x: seq<T>, y: seq<T>, z: seq<T>)
    ensures x + (y + z) == (x + y) + z
  {
  }

  lemma SplitConcatStep(a: string, b: string, sep: char, i: nat)
    requires i < |a| && a[i] == sep && sep !in a[..i]
    ensures Split(a + [sep] + b, sep) == [a[..i]] + Split(a[i + 1..] + [sep] + b, sep)
    ensures Split(a, sep) == [a[..i]] + Split(a[i + 1..], sep)
  {
    var s := a + [sep] + b;
    assert s[..i] == a[..i];
    SplitAt(s, sep, i);
    assert s[i + 1..] == a[i + 1..] + [sep] + b;
    SplitAt(a, sep, i);
  }

  lemma SplitConcatLast(a: string, b: string, sep: char)
    requires sep !in a
    ensures Split(a + [sep] + b, sep) == Split(a, sep) + Split(b, sep)
  {
    var s := a + [sep] + b;
    assert s[..|a|] == a;
    SplitAt(s, sep, |a|);
    assert s[|a| + 1..] == b;
  }

  /** `parts.join(sep)`; an empty array joins to the empty string. */
  function Join(parts: seq<string>, sep: string): (r: string)
    ensures |parts| > 0 ==> |parts[0]| <= |r| && r[..|parts[0]|] == parts[0]
  {
    if |parts| == 0 then ""
    else if |parts| == 1 then parts[0]
    else parts[0] + sep + Join(parts[1..], sep)
  }

  /** Joining the pieces of a split gives the original string back. */
  lemma {:induction false} JoinSplit(s: string, sep: char)
    ensures Join(Split(s, sep), [sep]) == s
    decreases |s|
  {
    if sep in s {
      var i := IndexOf(s, sep);
      var rest := Split(s[i + 1..], sep);
      assert Split(s, sep) == [s[..i]] + rest;
      JoinCons(s[..i], rest, [sep]);
      JoinSplit(s[i + 1..], sep);
      assert s == s[..i] + [sep] + s[i + 1..];
    }
  }

  lemma JoinCons(x: string, rest: seq<string>, sep: string)
    requires |rest| >= 1
    ensures Join([x] + rest, sep) == x + sep + Join(rest, sep)
  {
    assert ([x] + rest)[1..] == rest;
  }

  /** Splitting a join of separator-free pieces gives the pieces back. */
  lemma {:induction false} SplitJoin(parts: seq<string>, sep: char)
    requires |parts| >= 1
    requires forall k :: 0 <= k < |parts| ==> sep !in parts[k]
    ensures Split(Join(parts, [sep]), sep) == parts
  {
    if |parts| > 1 {
      var s := Join(parts, [sep]);
      var rest := Join(parts[1..], [sep]);
      assert s == parts[0] + [sep] + rest;
      assert s[|parts[0]|] == sep;
      assert sep in s;
      assert s[..|parts[0]|] == parts[0];
      assert IndexOf(s, sep) == |parts[0]|;
      assert s[|parts[0]| + 1..] == rest;
      SplitJoin(parts[1..], sep);
    }
  }

  /** Joining a suffix of the pieces of `s` gives a suffix of `s`. */
  lemma {:induction false} JoinSuffixOfSplit(s: string, sep: char, k: nat)
    requires k <= |Split(s, sep)|
    ensures EndsWith(s, Join(Split(s, sep)[k..], [sep]))
    decreases |s|
  {
    var parts := Split(s, sep);
    if k == 0 {
      JoinSplit(s, sep);
      assert parts[k..] == parts;
    } else if k < |parts| {
      var i := IndexOf(s, sep);
      var rest := s[i + 1..];
      assert parts == [s[..i]] + Split(rest, sep);
      assert parts[k..] == Split(rest, sep)[k - 1..];
      JoinSuffixOfSplit(rest, sep, k - 1);
      SuffixOfSuffix(s, rest, Join(parts[k..], [sep]));
    }
  }

  lemma SuffixOfSuffix(s: string, t: string, u: string)
    requires EndsWith(s, t) && EndsWith(t, u)
    ensures EndsWith(s, u)
  {
    assert s[|s| - |u|..] == s[|s| - |t|..][|t| - |u|..];
  }

  function DigitChar(d: nat): char
    requires d < 10
  {
    "0123456789"[d]
  }

  /** The decimal digits of `n`, as `${n}` renders a non-negative integer. */
  function Decimal(n: nat): (r: string)
    ensures |r| >= 1
    ensures forall k :: 0 <= k < |r| ==> '0' <= r[k] <= '9'
  {
    if n < 10 then [DigitChar(n)] else Decimal(n / 10) + [DigitChar(n % 10)]
  }

  /** `${n}` for any integer. */
  function IntToString(n: int): string {
    if n < 0 then "-" + Decimal(-n) else Decimal(n)
  }

  /** `.filter(line => line.trim())`. */
  function NonBlankLines(lines: seq<string>): (r: seq<string>)
    ensures |r| <= |lines|
  {
    if |lines| == 0 then []
    else (if Trim(lines[0]) != "" then [lines[0]] else []) + NonBlankLines(lines[1..])
  }

  /** The filter keeps exactly the lines that are not blank. */
  lemma {:induction false} NonBlankLinesMembers(lines: seq<string>)
    ensures forall x :: x in NonBlankLines(lines) <==> x in lines && !Blank(x)
  {
    if |lines| > 0 {
      NonBlankLinesMembers(lines[1..]);
      assert lines == [lines[0]] + lines[1..];
    }
  }

  /** The filter leaves nothing exactly when every line is blank. */
  lemma {:induction false} BlankLinesFilterToNothing(lines: seq<string>)
    ensures NonBlankLines(lines) == [] <==> forall l :: l in lines ==> Blank(l)
  {
    if |lines| > 0 {
      assert lines[0] in lines;
      BlankLinesFilterToNothing(lines[1..]);
      assert forall l :: l in lines[1..] ==> l in lines;
      assert forall l :: l in lines ==> l == lines[0] || l in lines[1..];
    }
  }
}
