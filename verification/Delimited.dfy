/** Text split on and joined by two characters. */
module Delimited {
  datatype Delimiter = Delimiter(first: char, second: char)

  function Text(d: Delimiter): string { [d.first, d.second] }

  /** The leftmost occurrence of the delimiter, or the length when there is none. */
  function Index(s: string, d: Delimiter): (i: nat)
    ensures i == |s| || (i + 2 <= |s| && s[i] == d.first && s[i + 1] == d.second)
    ensures forall k :: 0 <= k < i && k + 1 < |s| ==> !(s[k] == d.first && s[k + 1] == d.second)
  {
    if |s| < 2 then |s|
    else if s[0] == d.first && s[1] == d.second then 0
    else
      var i := 1 + Index(s[1..], d);
      assert forall k :: 0 < k < |s| ==> s[k] == s[1..][k - 1];
      i
  }

  /** Non-overlapping, from the left. */
  function Split(s: string, d: Delimiter): (parts: seq<string>)
    ensures parts != []
    decreases |s|
  {
    var i := Index(s, d);
    if i == |s| then [s] else [s[..i]] + Split(s[i + 2..], d)
  }

  function Join(parts: seq<string>, d: Delimiter): string {
    if parts == [] then ""
    else if |parts| == 1 then parts[0]
    else parts[0] + Text(d) + Join(parts[1..], d)
  }

  ghost predicate Free(s: string, d: Delimiter) {
    forall k :: 0 <= k && k + 1 < |s| ==> !(s[k] == d.first && s[k + 1] == d.second)
  }

  /** A part that can be followed by the delimiter without shifting it to the left. */
  ghost predicate Leads(s: string, d: Delimiter) {
    Free(s, d) && (d.first == d.second && s != [] ==> s[|s| - 1] != d.first)
  }

  ghost predicate Clean(parts: seq<string>, d: Delimiter) {
    && parts != []
    && Free(parts[|parts| - 1], d)
    && forall k :: 0 <= k < |parts| - 1 ==> Leads(parts[k], d)
  }

  lemma IndexAfterPart(a: string, rest: string, d: Delimiter)
    ensures Leads(a, d) <==> Index(a + Text(d) + rest, d) == |a|
  {
    var s := a + Text(d) + rest;
    assert forall k :: 0 <= k < |a| ==> s[k] == a[k];
    assert s[|a|] == d.first && s[|a| + 1] == d.second;
  }

  /** Splitting loses nothing. */
  lemma {:induction false} JoinSplit(s: string, d: Delimiter)
    ensures Join(Split(s, d), d) == s
    decreases |s|
  {
    var i := Index(s, d);
    if i < |s| {
      JoinSplit(s[i + 2..], d);
      assert Split(s, d)[1..] == Split(s[i + 2..], d);
      assert s == s[..i] + Text(d) + s[i + 2..];
    }
  }

  lemma {:induction false} SplitIsClean(s: string, d: Delimiter)
    ensures Clean(Split(s, d), d)
    decreases |s|
  {
    var i := Index(s, d);
    if i < |s| {
      var rest := Split(s[i + 2..], d);
      SplitIsClean(s[i + 2..], d);
      assert s == s[..i] + Text(d) + s[i + 2..];
      IndexAfterPart(s[..i], s[i + 2..], d);
      forall k | 0 <= k < |Split(s, d)| - 1 ensures Leads(Split(s, d)[k], d) {
        if k > 0 { assert Split(s, d)[k] == rest[k - 1]; }
      }
    }
  }

  lemma CleanTail(parts: seq<string>, d: Delimiter)
    requires Clean(parts, d) && |parts| > 1
    ensures Clean(parts[1..], d) && Leads(parts[0], d)
  {
    forall k | 0 <= k < |parts[1..]| - 1 ensures Leads(parts[1..][k], d) { assert parts[1..][k] == parts[k + 1]; }
  }

  lemma SplitAtLead(a: string, rest: string, d: Delimiter)
    requires Leads(a, d)
    ensures Split(a + Text(d) + rest, d) == [a] + Split(rest, d)
  {
    IndexAfterPart(a, rest, d);
    var s := a + Text(d) + rest;
    assert s[..|a|] == a && s[|a| + 2..] == rest;
  }

  lemma {:induction false} CleanRoundTrip(parts: seq<string>, d: Delimiter)
    requires Clean(parts, d)
    ensures Split(Join(parts, d), d) == parts
    decreases |parts|
  {
    if |parts| > 1 {
      CleanTail(parts, d);
      CleanRoundTrip(parts[1..], d);
      SplitAtLead(parts[0], Join(parts[1..], d), d);
      assert parts == [parts[0]] + parts[1..];
    } else {
      assert parts == [parts[0]];
    }
  }

  /** Joining can be undone exactly for parts free of the delimiter of which none but the last ends
      in half of a doubled one. */
  lemma RoundTripExactly(parts: seq<string>, d: Delimiter)
    ensures Split(Join(parts, d), d) == parts <==> Clean(parts, d)
  {
    if Clean(parts, d) { CleanRoundTrip(parts, d); }
    SplitIsClean(Join(parts, d), d);
  }

  lemma JoinInjective(a: seq<string>, b: seq<string>, d: Delimiter)
    requires Clean(a, d) && Clean(b, d) && Join(a, d) == Join(b, d)
    ensures a == b
  {
    CleanRoundTrip(a, d);
    CleanRoundTrip(b, d);
  }
}
