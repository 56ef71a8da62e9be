/** The string searches the handlers call: first character, first substring,
    cutting, trimming and splitting. */
module Text {
  import opened Basics

  /** `std::string::find(c)`: the first index holding `c`. */
  function IndexOf(s: string, c: char): (r: Option<nat>)
    ensures r.None? ==> c !in s
    ensures r.Some? ==> r.value < |s| && s[r.value] == c && c !in s[..r.value]
  {
    if s == "" then None
    else if s[0] == c then Some(0)
    else
      match IndexOf(s[1..], c)
      case None => None
      case Some(i) =>
        assert s[..i + 1] == [s[0]] + s[1..][..i];
        Some(i + 1)
  }

  /** Everything before the first `c`, or all of `s` when there is none. */
  function Until(s: string, c: char): (r: string)
    ensures r <= s && c !in r
    ensures |r| < |s| ==> s[|r|] == c
  {
    match IndexOf(s, c)
    case None => s
    case Some(i) => s[..i]
  }

  /** The cut is the only prefix that has no `c` and ends at a `c` or at the end. */
  lemma UntilUnique(s: string, c: char, r: string)
    requires r <= s && c !in r
    requires |r| < |s| ==> s[|r|] == c
    ensures Until(s, c) == r
  {
    var u := Until(s, c);
    assert forall i | 0 <= i < |r| :: s[i] != c;
    assert forall i | 0 <= i < |u| :: s[i] != c;
  }

  /** `string_view::find(pat)`: the first index at which `pat` starts. */
  function Find(s: string, pat: string): (r: Option<nat>)
    ensures r.Some? ==> r.value + |pat| <= |s|
  {
    if pat <= s then Some(0)
    else if s == "" then None
    else Later(Find(s[1..], pat), 1)
  }

  /** An index found in a tail, counted from `n` characters earlier. */
  function Later(found: Option<nat>, n: nat): Option<nat> {
    match found
    case None => None
    case Some(i) => Some(n + i)
  }

  lemma FindHere(s: string, pat: string)
    requires pat <= s
    ensures Find(s, pat) == Some(0)
  {
  }

  lemma FindInNothing(pat: string)
    requires pat != ""
    ensures Find("", pat) == None
  {
  }

  lemma FindNext(s: string, pat: string)
    requires !(pat <= s) && s != ""
    ensures Find(s, pat) == Later(Find(s[1..], pat), 1)
  {
  }

  /** What does not occur in a text does not occur in a tail of it. */
  lemma NotInTail(s: string, k: nat, pat: string)
    requires k <= |s| && Find(s, pat).None?
    ensures Find(s[k..], pat).None?
  {
    hide Find;
    var tail := s[k..];
    if Find(tail, pat).Some? {
      var i := Find(tail, pat).value;
      FindIsFirst(tail, pat, i);
      assert tail[i..] == s[k + i..];
      FindIsFirst(s, pat, k + i);
    }
  }

  /** Find returns an occurrence, and no earlier one exists. */
  lemma {:induction false} FindIsFirst(s: string, pat: string, i: nat)
    requires i <= |s|
    ensures Find(s, pat) == Some(i) ==> pat <= s[i..]
    ensures pat <= s[i..] ==> Find(s, pat).Some? && Find(s, pat).value <= i
  {
    if i == 0 {
      assert s[0..] == s;
    } else {
      FindIsFirst(s[1..], pat, i - 1);
      assert s[1..][i - 1..] == s[i..];
    }
  }

  /** The text behind the first occurrence of `pat`. */
  function After(s: string, pat: string): Option<string> {
    match Find(s, pat)
    case None => None
    case Some(i) => Some(s[i + |pat|..])
  }

  lemma DropInto(a: string, b: string, k: nat)
    requires k <= |b|
    ensures (a + b)[|a| + k..] == b[k..]
  {
  }

  lemma AfterInRight(a: string, b: string, pat: string)
    requires Find(a + b, pat) == Later(Find(b, pat), |a|)
    ensures After(a + b, pat) == After(b, pat)
  {
    hide Find;
    var found := Find(b, pat);
    if found.Some? {
      DropInto(a, b, found.value + |pat|);
    }
  }

  lemma AfterInLeft(a: string, b: string, pat: string)
    requires Find(a, pat).Some? && Find(a + b, pat) == Find(a, pat)
    ensures After(a + b, pat) == Some(After(a, pat).value + b)
  {
    hide Find;
    var k := Find(a, pat).value + |pat|;
    assert (a + b)[k..] == a[k..] + b;
  }

  function TrimLeft(s: string): string {
    if s != "" && s[0] == ' ' then TrimLeft(s[1..]) else s
  }

  function TrimRight(s: string): string {
    if s != "" && s[|s| - 1] == ' ' then TrimRight(s[..|s| - 1]) else s
  }

  /** The '/'-separated components of a path; "" has the one component "". */
  function Split(s: string): (r: seq<string>)
    ensures |r| > 0
    decreases |s|
  {
    var head := Until(s, '/');
    if |head| == |s| then [s] else [head] + Split(s[|head| + 1..])
  }

  /** The inverse of Split. */
  function Join(parts: seq<string>): string
    requires |parts| > 0
  {
    if |parts| == 1 then parts[0] else parts[0] + "/" + Join(parts[1..])
  }

  lemma {:induction false} JoinSplit(s: string)
    ensures Join(Split(s)) == s
    decreases |s|
  {
    var head := Until(s, '/');
    if |head| == |s| {
    } else {
      JoinSplit(s[|head| + 1..]);
      assert Split(s)[1..] == Split(s[|head| + 1..]);
      assert s == head + "/" + s[|head| + 1..];
    }
  }

  lemma SplitWhole(s: string)
    requires '/' !in s
    ensures Split(s) == [s]
  {
    UntilUnique(s, '/', s);
  }

  lemma SplitFirst(s: string, head: string)
    requires '/' !in head && head + "/" <= s
    ensures Split(s) == [head] + Split(s[|head| + 1..])
  {
    assert s[|head|] == (head + "/")[|head|];
    UntilUnique(s, '/', head);
  }

  /** Splitting a path glued together at a '/' gives both lists of components. */
  lemma {:induction false} SplitAppend(a: string, b: string)
    ensures Split(a + "/" + b) == Split(a) + Split(b)
    decreases |a|
  {
    hide IndexOf, Split;
    var s := a + "/" + b;
    var head := Until(a, '/');
    if |head| == |a| {
      assert a == head;
      SplitWhole(a);
      SplitFirst(s, a);
      assert s[|a| + 1..] == b;
    } else {
      var rest := a[|head| + 1..];
      assert a == head + "/" + rest;
      SplitFirst(a, head);
      SplitFirst(s, head);
      assert s[|head| + 1..] == rest + "/" + b;
      SplitAppend(rest, b);
      assert [head] + (Split(rest) + Split(b)) == ([head] + Split(rest)) + Split(b);
    }
  }

  /** What follows a common head is determined by the whole. */
  lemma SameTail<T>(head: seq<T>, x: seq<T>, y: seq<T>)
    requires head + x == head + y
    ensures x == y
  {
    assert (head + x)[|head|..] == x;
    assert (head + y)[|head|..] == y;
  }

  /** And so is what precedes a common tail. */
  lemma SameHead<T>(x: seq<T>, y: seq<T>, tail: seq<T>)
    requires x + tail == y + tail
    ensures x == y
  {
    assert |x| == |y|;
    assert (x + tail)[..|x|] == x;
    assert (y + tail)[..|y|] == y;
  }

  /** A pattern whose first character does not occur in front is found behind it. */
  lemma {:induction false} FindBehind(front: string, rest: string, pat: string)
    requires pat != "" && pat[0] !in front
    ensures Find(front + rest, pat) == Later(Find(rest, pat), |front|)
    ensures After(front + rest, pat) == After(rest, pat)
  {
    hide Find;
    if front == "" {
      assert front + rest == rest;
    } else {
      var s := front + rest;
      assert s[0] == front[0] && front[0] in front;
      FindNext(s, pat);
      assert s[1..] == front[1..] + rest;
      FindBehind(front[1..], rest, pat);
    }
    AfterInRight(front, rest, pat);
  }

  lemma AfterHere(pat: string, rest: string)
    ensures After(pat + rest, pat) == Some(rest)
  {
    FindHere(pat + rest, pat);
  }
}
