/** The functions of Go's package strings that file names and package paths are
    taken apart with. */
module GoStrings {

  function TrimSuffix(s: string, suffix: string): (r: string)
    ensures if HasSuffix(s, suffix) then s == r + suffix else r == s
  {
    if |suffix| <= |s| && s[|s| - |suffix|..] == suffix then s[..|s| - |suffix|] else s
  }

  predicate HasSuffix(s: string, suffix: string) {
    |suffix| <= |s| && s[|s| - |suffix|..] == suffix
  }

  /** strings.LastIndex of one byte: the last place it stands, or -1. */
  function LastIndex(s: string, c: char): (r: int)
    ensures -1 <= r < |s|
    ensures r >= 0 ==> s[r] == c
    ensures forall k :: r < k < |s| ==> s[k] != c
  {
    if s == [] then -1
    else if s[|s| - 1] == c then |s| - 1
    else LastIndex(s[..|s| - 1], c)
  }

  lemma LastIndexIs(s: string, c: char, at: nat)
    requires at < |s| && s[at] == c && c !in s[at + 1..]
    ensures LastIndex(s, c) == at
  {
    assert forall k :: at < k < |s| ==> s[k] == s[at + 1..][k - at - 1];
  }

  lemma SplitAtLast(a: string, c: char, b: string)
    requires c !in b
    ensures var s := a + [c] + b;
            && LastIndex(s, c) == |a|
            && s[..|a|] == a && s[|a| + 1..] == b
  {
    var s := a + [c] + b;
    assert s[..|a|] == a;
    assert s[|a| + 1..] == b;
    LastIndexIs(s, c, |a|);
  }

  // ------------------------------------------------------------- paths by segment

  /** strings.Split(s, "/") */
  function Split(s: string): (segs: seq<string>)
    ensures segs != []
  {
    if s == "" then [""]
    else
      var rest := Split(s[1..]);
      if s[0] == '/' then [""] + rest else [[s[0]] + rest[0]] + rest[1..]
  }

  /** b is a, or something under a. */
  predicate AtOrUnder(a: string, b: string) {
    b == a || a + "/" <= b
  }

  lemma {:induction false} SplitAppend(a: string, b: string)
    ensures Split(a + "/" + b) == Split(a) + Split(b)
  {
    var s := a + "/" + b;
    if a == "" {
      assert s[1..] == b;
    } else {
      assert s[0] == a[0] && s[1..] == a[1..] + "/" + b;
      SplitAppend(a[1..], b);
    }
  }

  /** The first segments of a path are themselves a path, at or above it. */
  lemma {:induction false} Ancestor(s: string, n: nat) returns (a: string)
    requires 1 <= n <= |Split(s)|
    ensures Split(a) == Split(s)[..n] && AtOrUnder(a, s)
  {
    if n == |Split(s)| {
      a := s;
    } else if s[0] == '/' && n == 1 {
      a := "";
    } else if s[0] == '/' {
      var b := Ancestor(s[1..], n - 1);
      a := "/" + b;
      assert a[1..] == b;
      UnderBySameHead(s, b);
    } else {
      var b := Ancestor(s[1..], n);
      a := [s[0]] + b;
      assert a[1..] == b;
      UnderBySameHead(s, b);
    }
  }

  lemma UnderBySameHead(s: string, b: string)
    requires s != "" && AtOrUnder(b, s[1..])
    ensures AtOrUnder([s[0]] + b, s)
  {
    assert s == [s[0]] + s[1..];
    if b + "/" <= s[1..] {
      assert ([s[0]] + b) + "/" == [s[0]] + (b + "/");
    }
  }

  /** Segments that begin with those of a path lie at or under it. */
  lemma SegmentsUnder(a: string, s: string)
    requires AtOrUnder(a, s)
    ensures |Split(a)| <= |Split(s)| && Split(s)[..|Split(a)|] == Split(a)
  {
    if s != a {
      var b := s[|a| + 1..];
      assert s == a + "/" + b;
      SplitAppend(a, b);
    }
  }
}
