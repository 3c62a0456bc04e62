/** The string operations of Go's `strings` package that the naming scheme relies on. */
module Text {

  predicate OccursAt(s: string, sub: string, i: int) {
    0 <= i <= |s| - |sub| && s[i..i + |sub|] == sub
  }

  /** `strings.Contains`: `sub` occurs somewhere in `s`. */
  predicate Contains(s: string, sub: string) {
    exists i :: 0 <= i <= |s| - |sub| && OccursAt(s, sub, i)
  }

  /** `strings.HasPrefix`. */
  predicate HasPrefix(s: string, prefix: string) {
    |prefix| <= |s| && s[..|prefix|] == prefix
  }

  /** `strings.Split` for a one-character separator: never empty, no part holds the separator. */
  function Split(s: string, sep: char): (parts: seq<string>)
    ensures |parts| >= 1
    ensures forall i :: 0 <= i < |parts| ==> sep !in parts[i]
  {
    if s == "" then [""]
    else
      var rest := Split(s[1..], sep);
      if s[0] == sep then [""] + rest else [[s[0]] + rest[0]] + rest[1..]
  }

  /** `strings.Join` for a one-character separator. */
  function Join(parts: seq<string>, sep: char): string
    requires |parts| >= 1
  {
    if |parts| == 1 then parts[0] else parts[0] + [sep] + Join(parts[1..], sep)
  }

  /** Joining the parts of a split gives the string back. */
  lemma {:induction false} JoinSplit(s: string, sep: char)
    ensures Join(Split(s, sep), sep) == s
  {
    if s != "" {
      JoinSplit(s[1..], sep);
      var rest := Split(s[1..], sep);
      var parts := Split(s, sep);
      if s[0] == sep {
        assert parts[1..] == rest;
      } else if |rest| > 1 {
        assert parts[1..] == rest[1..];
      }
    }
  }

  /** Splitting at a separator is splitting both sides of it. */
  lemma {:induction false} SplitAt(x: string, y: string, sep: char)
    ensures Split(x + [sep] + y, sep) == Split(x, sep) + Split(y, sep)
  {
    var s := x + [sep] + y;
    if x == "" {
      assert s[1..] == y;
    } else {
      assert s[1..] == x[1..] + [sep] + y;
      SplitAt(x[1..], y, sep);
    }
  }

  /** A string without the separator is its own only part. */
  lemma {:induction false} SplitPlain(s: string, sep: char)
    requires sep !in s
    ensures Split(s, sep) == [s]
  {
    if s != "" {
      SplitPlain(s[1..], sep);
      assert [s[0]] + s[1..] == s;
    }
  }

  /** A part without the separator is split off unchanged. */
  lemma SplitHead(a: string, y: string, sep: char)
    requires sep !in a
    ensures Split(a + [sep] + y, sep) == [a] + Split(y, sep)
  {
    SplitAt(a, y, sep);
    SplitPlain(a, sep);
  }

  /** A separator-free pattern occurs in one side of the separator or in the other. */
  lemma ContainsOneSide(x: string, y: string, sep: char, sub: string)
    requires sep !in sub && Contains(x + [sep] + y, sub)
    ensures Contains(x, sub) || Contains(y, sub)
  {
    var s := x + [sep] + y;
    var i :| 0 <= i <= |s| - |sub| && OccursAt(s, sub, i);
    assert s[i..i + |sub|] == sub && s[|x|] == sep;
    if i + |sub| <= |x| {
      assert x[i..i + |sub|] == sub;
      assert OccursAt(x, sub, i);
    } else if i > |x| {
      var j := i - |x| - 1;
      assert y[j..j + |sub|] == s[i..i + |sub|];
      assert OccursAt(y, sub, j);
    }
  }

  /** Splitting a join gives the parts back when none of them holds the separator. */
  lemma {:induction false} SplitJoin(parts: seq<string>, sep: char)
    requires |parts| >= 1
    requires forall i :: 0 <= i < |parts| ==> sep !in parts[i]
    ensures Split(Join(parts, sep), sep) == parts
  {
    if |parts| == 1 {
      SplitPlain(parts[0], sep);
    } else {
      SplitJoin(parts[1..], sep);
      SplitHead(parts[0], Join(parts[1..], sep), sep);
    }
  }

  lemma OccurrenceSides(full: string, mid: string, last: string, sep: char, j: nat) returns (left: string,
                        right: string)
    requires OccursAt(full, [sep] + mid + [sep] + last, j)
    ensures full == left + [sep] + (mid + [sep] + right)
  {
    left, right := full[..j], full[j + |mid| + 2..];
    var pattern := [sep] + mid + [sep] + last;
    assert full[j..j + |pattern|][..|mid| + 2] == [sep] + mid + [sep];
    assert full == left + full[j..j + |mid| + 2] + right;
  }

  lemma Window(tokens: seq<string>, lead: seq<string>, mid: seq<string>, tail: seq<string>)
    requires [""] + tokens == lead + (mid + tail) && |lead| >= 1
    ensures |lead| - 1 + |mid| <= |tokens| && tokens[|lead| - 1..|lead| - 1 + |mid|] == mid
  {
    assert |tokens| == |lead| - 1 + |mid| + |tail|;
    forall i | 0 <= i < |mid|
      ensures tokens[|lead| - 1 + i] == mid[i]
    {
      assert tokens[|lead| - 1 + i] == ([""] + tokens)[|lead| + i] == (lead + (mid + tail))[|lead| + i];
    }
  }

  /** Where separated parts occur in a longer string, they are consecutive parts of it. */
  lemma OccurrenceParts(body: string, mid: string, last: string, sep: char, j: nat) returns (n: nat)
    requires OccursAt([sep] + body, [sep] + mid + [sep] + last, j)
    ensures n + |Split(mid, sep)| <= |Split(body, sep)|
    ensures Split(body, sep)[n..n + |Split(mid, sep)|] == Split(mid, sep)
  {
    var left, right := OccurrenceSides([sep] + body, mid, last, sep, j);
    SplitAt(left, mid + [sep] + right, sep);
    SplitAt(mid, right, sep);
    SplitHead("", body, sep);
    assert "" + [sep] + body == [sep] + body;
    Window(Split(body, sep), Split(left, sep), Split(mid, sep), Split(right, sep));
    n := |Split(left, sep)| - 1;
  }

  /** A pattern that starts with a prefix and a separator occurs past any separator-free prefix. */
  lemma OccursAfterPrefix(prefix: string, body: string, prefix': string, text: string, sep: char,
                          i: nat) returns (k: nat)
    requires prefix == prefix' || sep !in prefix
    requires OccursAt(prefix + [sep] + body, prefix' + [sep] + text, i)
    ensures OccursAt([sep] + body, [sep] + text, k)
  {
    var s, sub := prefix + [sep] + body, prefix' + [sep] + text;
    var j := i + |prefix'|;
    assert s[i..i + |sub|][|prefix'|..] == [sep] + text;
    assert s[j..j + 1 + |text|] == [sep] + text;
    assert s[j] == sep;
    assert forall m :: 0 <= m < |prefix| ==> s[m] in prefix;
    k := j - |prefix|;
    assert ([sep] + body)[k..k + 1 + |text|] == s[j..j + 1 + |text|];
  }

  lemma {:induction false} JoinLast(parts: seq<string>, last: string, sep: char)
    requires |parts| >= 1
    ensures Join(parts + [last], sep) == Join(parts, sep) + [sep] + last
  {
    if |parts| > 1 {
      JoinLast(parts[1..], last, sep);
      assert (parts + [last])[1..] == parts[1..] + [last];
    } else {
      assert (parts + [last])[1..] == [last];
    }
  }

  lemma ContainsChars(s: string, sub: string)
    requires Contains(s, sub)
    ensures forall c :: c in sub ==> c in s
  {
    var i :| 0 <= i <= |s| - |sub| && OccursAt(s, sub, i);
    assert sub == s[i..i + |sub|];
  }
}
