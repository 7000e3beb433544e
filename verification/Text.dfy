// The string operations of Go's `strings` package that the crawler uses, on ASCII text.
module Text {
  function LowerChar(c: char): char {
    if 'A' <= c <= 'Z' then c + 32 as char else c
  }

  // strings.ToLower
  function Lower(s: string): (r: string)
    ensures |r| == |s| && forall i :: 0 <= i < |s| ==> r[i] == LowerChar(s[i])
  {
    seq(|s|, i requires 0 <= i < |s| => LowerChar(s[i]))
  }

  lemma LowerIdempotent(s: string)
    ensures Lower(Lower(s)) == Lower(s)
  {
  }

  // What lower case is: ASCII letters move, in order, and nothing else does.
  lemma LowerExact(s: string, i: nat)
    requires i < |s|
    ensures 'A' <= s[i] <= 'Z' ==>
              'a' <= Lower(s)[i] <= 'z' && Lower(s)[i] as int - 'a' as int == s[i] as int - 'A' as int
    ensures !('A' <= s[i] <= 'Z') ==> Lower(s)[i] == s[i]
  {
  }

  predicate IsSpace(c: char) {
    c == ' ' || '\t' <= c <= '\r'
  }

  function TrimLeft(s: string): string {
    if s != [] && IsSpace(s[0]) then TrimLeft(s[1..]) else s
  }

  function TrimRight(s: string): string {
    if s != [] && IsSpace(s[|s| - 1]) then TrimRight(s[..|s| - 1]) else s
  }

  // strings.TrimSpace
  function TrimSpace(s: string): string {
    TrimRight(TrimLeft(s))
  }

  // True of strings that TrimSpace leaves alone.
  predicate Trimmed(s: string) {
    s == [] || (!IsSpace(s[0]) && !IsSpace(s[|s| - 1]))
  }

  lemma TrimLeftStarts(s: string)
    ensures var t := TrimLeft(s); t == [] || !IsSpace(t[0])
  {
  }

  lemma TrimRightKeepsStart(s: string)
    requires s == [] || !IsSpace(s[0])
    ensures Trimmed(TrimRight(s))
  {
  }

  // Trimming twice is trimming once, and the result is a fixed point.
  lemma TrimSpaceIdempotent(s: string)
    ensures Trimmed(TrimSpace(s)) && TrimSpace(TrimSpace(s)) == TrimSpace(s)
  {
    TrimLeftStarts(s);
    TrimRightKeepsStart(TrimLeft(s));
  }

  lemma {:induction false} TrimLeftExact(s: string) returns (i: nat)
    ensures i <= |s| && TrimLeft(s) == s[i..]
    ensures forall k :: 0 <= k < i ==> IsSpace(s[k])
    decreases |s|
  {
    if s == [] || !IsSpace(s[0]) {
      i := 0;
    } else {
      i := TrimLeftExact(s[1..]);
      i := i + 1;
      assert forall k :: 1 <= k < i ==> s[1..][k - 1] == s[k];
    }
  }

  lemma {:induction false} TrimRightExact(s: string) returns (j: nat)
    ensures j <= |s| && TrimRight(s) == s[..j]
    ensures forall k :: j <= k < |s| ==> IsSpace(s[k])
    decreases |s|
  {
    if s == [] || !IsSpace(s[|s| - 1]) {
      j := |s|;
    } else {
      j := TrimRightExact(s[..|s| - 1]);
      assert forall k :: j <= k < |s| - 1 ==> s[..|s| - 1][k] == s[k];
    }
  }

  // What trimming is: space, tab, line feed, vertical tab, form feed and carriage return go from both ends,
  // and what is left begins and ends with none of them.
  lemma TrimSpaceExact(s: string) returns (i: nat, j: nat)
    ensures i <= j <= |s| && TrimSpace(s) == s[i..j]
    ensures forall k :: 0 <= k < i || j <= k < |s| ==> s[k] == ' ' || 9 <= s[k] as int <= 13
    ensures i < j ==> forall k :: k == i || k == j - 1 ==> s[k] != ' ' && !(9 <= s[k] as int <= 13)
  {
    i := TrimLeftExact(s);
    var n := TrimRightExact(s[i..]);
    j := i + n;
    TrimSpaceIdempotent(s);
    assert s[i..][..n] == s[i..j];
    forall k | j <= k < |s|
      ensures IsSpace(s[k])
    {
      assert s[i..][k - i] == s[k];
    }
  }

  // strings.HasSuffix
  predicate HasSuffix(s: string, suffix: string) {
    |suffix| <= |s| && s[|s| - |suffix|..] == suffix
  }

  // strings.Split on a one-character separator.
  function Split(s: string, sep: char): (parts: seq<string>)
    ensures parts != []
  {
    if s == [] then [""] else Front(s[0], Split(s[1..], sep), sep)
  }

  // strings.Join with a one-character separator.
  function Join(parts: seq<string>, sep: char): string {
    if parts == [] then ""
    else if |parts| == 1 then parts[0]
    else parts[0] + [sep] + Join(parts[1..], sep)
  }

  lemma SplitNoSeparator(s: string, sep: char)
    requires sep !in s
    ensures Split(s, sep) == [s]
  {
    if s != [] {
      SplitNoSeparator(s[1..], sep);
      assert [s[0]] + s[1..] == s;
    }
  }

  lemma SplitPrefix(head: string, tail: string, sep: char)
    requires sep !in head
    ensures Split(head + [sep] + tail, sep) == [head] + Split(tail, sep)
  {
    var s := head + [sep] + tail;
    if head == [] {
      assert s[1..] == tail;
    } else {
      SplitPrefix(head[1..], tail, sep);
      assert s[1..] == head[1..] + [sep] + tail;
      assert [head[0]] + head[1..] == head;
    }
  }

  lemma SplitParts(s: string, sep: char)
    ensures forall i :: 0 <= i < |Split(s, sep)| ==> sep !in Split(s, sep)[i]
  {
  }

  // Joining undoes splitting ...
  lemma {:induction false} JoinSplit(s: string, sep: char)
    ensures Join(Split(s, sep), sep) == s
  {
    if s == [] {
    } else {
      JoinSplit(s[1..], sep);
      var rest := Split(s[1..], sep);
      if s[0] == sep {
        assert ([""] + rest)[1..] == rest;
        assert s == "" + [sep] + s[1..];
      } else if |rest| > 1 {
        assert ([[s[0]] + rest[0]] + rest[1..])[1..] == rest[1..];
        assert s == [s[0]] + s[1..];
      } else {
        assert s == [s[0]] + s[1..];
      }
    }
  }

  // A separator splits a text in two.
  lemma {:induction false} SplitAppend(a: string, b: string, sep: char)
    ensures Split(a + [sep] + b, sep) == Split(a, sep) + Split(b, sep)
  {
    var s := a + [sep] + b;
    if a == [] {
      assert s[1..] == b;
    } else {
      SplitAppend(a[1..], b, sep);
      assert s[1..] == a[1..] + [sep] + b;
      FrontAppend(a[0], Split(a[1..], sep), Split(b, sep), sep);
    }
  }

  // Split, given the parts of the rest.
  function Front(c: char, rest: seq<string>, sep: char): seq<string>
    requires rest != []
  {
    if c == sep then [""] + rest else [[c] + rest[0]] + rest[1..]
  }

  lemma FrontAppend(c: char, rest: seq<string>, more: seq<string>, sep: char)
    requires rest != []
    ensures Front(c, rest + more, sep) == Front(c, rest, sep) + more
  {
    assert (rest + more)[1..] == rest[1..] + more;
  }

  // ... and splitting undoes joining when no part contains the separator.
  lemma {:induction false} SplitJoin(parts: seq<string>, sep: char)
    requires parts != []
    requires forall i :: 0 <= i < |parts| ==> sep !in parts[i]
    ensures Split(Join(parts, sep), sep) == parts
  {
    if |parts| == 1 {
      SplitNoSeparator(parts[0], sep);
    } else {
      SplitJoin(parts[1..], sep);
      SplitPrefix(parts[0], Join(parts[1..], sep), sep);
    }
  }
}
