/** The two blocklist filters on outgoing request headers: every header whose
    lower-cased name is in a fixed list is dropped, by `Array.prototype.filter`,
    and the survivors keep their order. */
module HeaderFilters {
  import opened Headers

  /** The list of the fingerprinting-header listener. */
  const FingerprintingHeaders: seq<string> :=
    ["user-agent", "accept-language", "referer", "accept-encoding", "geolocation"]

  /** The list of the browser/OS-header listener (User-Agent and client hints). */
  const BrowserOSHeaders: seq<string> :=
    ["user-agent", "sec-ch-ua", "sec-ch-ua-mobile", "sec-ch-ua-platform"]

  /** The filter callback's negated test `blocked.includes(h.name.toLowerCase())`. */
  predicate Blocked(h: Header, blocked: seq<string>)
  {
    Lower(h.name) in blocked
  }

  /** `hs.filter(h => !blocked.includes(h.name.toLowerCase()))`. */
  function FilterOut(hs: seq<Header>, blocked: seq<string>): (r: seq<Header>)
    ensures |r| <= |hs|
    ensures forall k :: 0 <= k < |r| ==> !Blocked(r[k], blocked)
    ensures forall k :: 0 <= k < |r| ==> r[k] in hs
  {
    if hs == [] then []
    else if Blocked(hs[0], blocked) then FilterOut(hs[1..], blocked)
    else [hs[0]] + FilterOut(hs[1..], blocked)
  }

  /** `a` is obtained from `b` by deleting entries, without reordering. */
  predicate IsSubsequence(a: seq<Header>, b: seq<Header>)
  {
    if a == [] then true
    else if b == [] then false
    else if a[0] == b[0] then IsSubsequence(a[1..], b[1..])
    else IsSubsequence(a, b[1..])
  }

  /** Dropping the first entry of a subsequence keeps it a subsequence. */
  lemma {:induction false} SubsequenceDropHead(a: seq<Header>, b: seq<Header>)
    requires a != [] && IsSubsequence(a, b)
    ensures IsSubsequence(a[1..], b)
    decreases |b|
  {
    assert b != [];
    if a[0] != b[0] {
      SubsequenceDropHead(a, b[1..]);
    }
    // now IsSubsequence(a[1..], b[1..]) holds in both cases
    if a[1..] != [] && a[1] == b[0] {
      SubsequenceDropHead(a[1..], b[1..]);
      assert a[1..][1..] == a[2..];
    }
  }

  /** A subsequence of `b` is a subsequence of `b` with an entry in front. */
  lemma IsSubsequenceOfCons(a: seq<Header>, b: seq<Header>, x: Header)
    requires IsSubsequence(a, b)
    ensures IsSubsequence(a, [x] + b)
  {
    assert ([x] + b)[1..] == b;
    if a != [] && a[0] == x {
      SubsequenceDropHead(a, b);
    }
  }

  /** The survivors are the input with entries deleted, in their original
      order, each surviving header occurs exactly as often as in the input,
      and no blocked header survives: together these determine the output. */
  lemma {:induction false} FilterOutSpec(hs: seq<Header>, blocked: seq<string>)
    ensures IsSubsequence(FilterOut(hs, blocked), hs)
    ensures forall h :: multiset(FilterOut(hs, blocked))[h] ==
                        if Blocked(h, blocked) then 0 else multiset(hs)[h]
  {
    if hs != [] {
      FilterOutSpec(hs[1..], blocked);
      assert hs == [hs[0]] + hs[1..];
      var rest := FilterOut(hs[1..], blocked);
      if Blocked(hs[0], blocked) {
        IsSubsequenceOfCons(rest, hs[1..], hs[0]);
      } else {
        assert ([hs[0]] + rest)[1..] == rest;
      }
    }
  }

  /** A header list without blocked entries passes through unchanged. */
  lemma {:induction false} FilterOutNothingBlocked(hs: seq<Header>, blocked: seq<string>)
    requires forall k :: 0 <= k < |hs| ==> !Blocked(hs[k], blocked)
    ensures FilterOut(hs, blocked) == hs
  {
    if hs != [] {
      FilterOutNothingBlocked(hs[1..], blocked);
    }
  }

  /** Filtering distributes over concatenation. */
  lemma {:induction false} FilterOutAppend(a: seq<Header>, b: seq<Header>, blocked: seq<string>)
    ensures FilterOut(a + b, blocked) == FilterOut(a, blocked) + FilterOut(b, blocked)
  {
    if a != [] {
      assert (a + b)[0] == a[0];
      assert (a + b)[1..] == a[1..] + b;
      FilterOutAppend(a[1..], b, blocked);
    } else {
      assert a + b == b;
    }
  }

  /** Applying a filter twice is applying it once. */
  lemma FilterOutIdempotent(hs: seq<Header>, blocked: seq<string>)
    ensures FilterOut(FilterOut(hs, blocked), blocked) == FilterOut(hs, blocked)
  {
    FilterOutNothingBlocked(FilterOut(hs, blocked), blocked);
  }

  /** Two filters in sequence are one filter with the union of the lists. */
  lemma {:induction false} FilterOutTwice(hs: seq<Header>, a: seq<string>, b: seq<string>)
    ensures FilterOut(FilterOut(hs, a), b) == FilterOut(hs, a + b)
  {
    if hs != [] {
      FilterOutTwice(hs[1..], a, b);
      if !Blocked(hs[0], a) {
        assert ([hs[0]] + FilterOut(hs[1..], a))[1..] == FilterOut(hs[1..], a);
      }
    }
  }

  /** The order in which two filters run does not matter. */
  lemma FilterOutCommute(hs: seq<Header>, a: seq<string>, b: seq<string>)
    ensures FilterOut(FilterOut(hs, a), b) == FilterOut(FilterOut(hs, b), a)
  {
    FilterOutTwice(hs, a, b);
    FilterOutTwice(hs, b, a);
    FilterOutSameMembers(hs, a + b, b + a);
  }

  /** Only which names a list holds matters, not their order or repetitions. */
  lemma {:induction false} FilterOutSameMembers(hs: seq<Header>, a: seq<string>, b: seq<string>)
    requires forall n :: n in a <==> n in b
    ensures FilterOut(hs, a) == FilterOut(hs, b)
  {
    if hs != [] {
      FilterOutSameMembers(hs[1..], a, b);
    }
  }
}
