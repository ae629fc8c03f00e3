/** What the Cookie and Set-Cookie listeners do to a header list: the indexed
    loop stops at the first entry whose lower-cased name matches, `splice`s
    that one entry out and `break`s, so only the FIRST match is removed. */
module FirstMatch {
  import opened Headers
  import opened HeaderFilters

  /** Some entry of `hs` carries the name (after case folding). */
  predicate HasNamed(hs: seq<Header>, name: string)
  {
    exists k :: 0 <= k < |hs| && IsNamed(hs[k], name)
  }

  /** `k` is the lowest index whose entry carries the name. */
  predicate IsFirstNamed(hs: seq<Header>, name: string, k: int)
  {
    && 0 <= k < |hs|
    && IsNamed(hs[k], name)
    && forall j :: 0 <= j < k ==> !IsNamed(hs[j], name)
  }

  /** Number of entries that carry the name. */
  function CountNamed(hs: seq<Header>, name: string): nat
  {
    if hs == [] then 0
    else (if IsNamed(hs[0], name) then 1 else 0) + CountNamed(hs[1..], name)
  }

  /** The list after the loop: the first entry that carries the name is
      removed, and nothing else changes. */
  function RemoveFirst(hs: seq<Header>, name: string): (r: seq<Header>)
    ensures |r| == if HasNamed(hs, name) then |hs| - 1 else |hs|
  {
    if hs == [] then []
    else if IsNamed(hs[0], name) then hs[1..]
    else
      assert HasNamed(hs, name) <==> HasNamed(hs[1..], name) by {
        if HasNamed(hs, name) {
          var k :| 0 <= k < |hs| && IsNamed(hs[k], name);
          assert hs[1..][k - 1] == hs[k];
        }
        if HasNamed(hs[1..], name) {
          var k :| 0 <= k < |hs[1..]| && IsNamed(hs[1..][k], name);
          assert hs[k + 1] == hs[1..][k];
        }
      }
      [hs[0]] + RemoveFirst(hs[1..], name)
  }

  /** When there is a match, the loop's index reaches the first one. */
  lemma {:induction false} FirstNamedIndex(hs: seq<Header>, name: string) returns (k: nat)
    requires HasNamed(hs, name)
    ensures IsFirstNamed(hs, name, k)
  {
    if IsNamed(hs[0], name) {
      k := 0;
    } else {
      var m :| 0 <= m < |hs| && IsNamed(hs[m], name);
      assert hs[1..][m - 1] == hs[m];
      var k' := FirstNamedIndex(hs[1..], name);
      k := k' + 1;
      forall j | 0 <= j < k ensures !IsNamed(hs[j], name) {
        if j > 0 { assert hs[j] == hs[1..][j - 1]; }
      }
    }
  }

  /** With a match at lowest index `k`, exactly that entry is removed: every
      other entry, later matching ones included, stays in its order. */
  lemma {:induction false} RemoveFirstAt(hs: seq<Header>, name: string, k: int)
    requires IsFirstNamed(hs, name, k)
    ensures RemoveFirst(hs, name) == hs[..k] + hs[k + 1..]
    ensures |RemoveFirst(hs, name)| == |hs| - 1
  {
    if k > 0 {
      assert !IsNamed(hs[0], name);
      forall j | 0 <= j < k - 1 ensures !IsNamed(hs[1..][j], name) {
        assert hs[1..][j] == hs[j + 1];
      }
      RemoveFirstAt(hs[1..], name, k - 1);
      assert hs[..k] == [hs[0]] + hs[1..][..k - 1];
      assert hs[k + 1..] == hs[1..][k..];
    }
  }

  /** Without a match the list is unchanged, and only then. */
  lemma {:induction false} RemoveFirstUnchangedIff(hs: seq<Header>, name: string)
    ensures RemoveFirst(hs, name) == hs <==> !HasNamed(hs, name)
  {
    if hs != [] && !IsNamed(hs[0], name) {
      RemoveFirstUnchangedIff(hs[1..], name);
      if HasNamed(hs[1..], name) {
        var k :| 0 <= k < |hs[1..]| && IsNamed(hs[1..][k], name);
        assert hs[k + 1] == hs[1..][k];
      }
    }
  }

  /** HasNamed is the same as a positive count. */
  lemma {:induction false} CountNamedPositive(hs: seq<Header>, name: string)
    ensures CountNamed(hs, name) > 0 <==> HasNamed(hs, name)
  {
    if hs != [] {
      CountNamedPositive(hs[1..], name);
      if HasNamed(hs[1..], name) {
        var k :| 0 <= k < |hs[1..]| && IsNamed(hs[1..][k], name);
        assert hs[k + 1] == hs[1..][k];
      }
      if HasNamed(hs, name) && !IsNamed(hs[0], name) {
        var k :| 0 <= k < |hs| && IsNamed(hs[k], name);
        assert hs[1..][k - 1] == hs[k];
      }
    }
  }

  /** One pass removes exactly one matching entry when there is one. */
  lemma {:induction false} RemoveFirstCount(hs: seq<Header>, name: string)
    ensures CountNamed(RemoveFirst(hs, name), name) ==
            if CountNamed(hs, name) > 0 then CountNamed(hs, name) - 1 else 0
  {
    if hs != [] && !IsNamed(hs[0], name) {
      RemoveFirstCount(hs[1..], name);
      assert ([hs[0]] + RemoveFirst(hs[1..], name))[1..] == RemoveFirst(hs[1..], name);
    }
  }

  /** The strip is idempotent on a list exactly when that list holds at most
      one matching entry: with two or more, a second pass removes another. */
  lemma RemoveFirstIdempotentIff(hs: seq<Header>, name: string)
    ensures RemoveFirst(RemoveFirst(hs, name), name) == RemoveFirst(hs, name)
            <==> CountNamed(hs, name) <= 1
  {
    RemoveFirstCount(hs, name);
    RemoveFirstUnchangedIff(RemoveFirst(hs, name), name);
    CountNamedPositive(RemoveFirst(hs, name), name);
  }

  /** The strip applied `n` times in a row (one event per application). */
  function StripTimes(hs: seq<Header>, name: string, n: nat): seq<Header>
    decreases n
  {
    if n == 0 then hs else StripTimes(RemoveFirst(hs, name), name, n - 1)
  }

  /** After `n` passes, `n` matching entries are gone (or all of them, when
      there were fewer): with `c` matches, `c` passes are needed and `c - 1`
      passes still leave one behind. */
  lemma {:induction false} StripTimesCount(hs: seq<Header>, name: string, n: nat)
    ensures CountNamed(StripTimes(hs, name, n), name) ==
            if CountNamed(hs, name) > n then CountNamed(hs, name) - n else 0
    decreases n
  {
    if n > 0 {
      RemoveFirstCount(hs, name);
      StripTimesCount(RemoveFirst(hs, name), name, n - 1);
    }
  }

  /** Removing the first match does not change what the remove-all filter
      keeps. */
  lemma {:induction false} FilterOutRemoveFirst(hs: seq<Header>, name: string)
    ensures FilterOut(RemoveFirst(hs, name), [name]) == FilterOut(hs, [name])
  {
    if hs != [] && !IsNamed(hs[0], name) {
      FilterOutRemoveFirst(hs[1..], name);
      assert ([hs[0]] + RemoveFirst(hs[1..], name))[1..] == RemoveFirst(hs[1..], name);
    }
  }

  /** Repeating the first-match strip once per matching entry removes every
      match: the result is what a remove-all filter would produce. */
  lemma StripAllMatches(hs: seq<Header>, name: string)
    ensures StripTimes(hs, name, CountNamed(hs, name)) == FilterOut(hs, [name])
  {
    var c := CountNamed(hs, name);
    StripTimesKeepsFilter(hs, name, c);
    StripTimesCount(hs, name, c);
    var s := StripTimes(hs, name, c);
    CountNamedPositive(s, name);
    FilterOutNothingBlocked(s, [name]);
  }

  /** Each pass leaves the remove-all filter's result as it was. */
  lemma {:induction false} StripTimesKeepsFilter(hs: seq<Header>, name: string, n: nat)
    ensures FilterOut(StripTimes(hs, name, n), [name]) == FilterOut(hs, [name])
    decreases n
  {
    if n > 0 {
      StripTimesKeepsFilter(RemoveFirst(hs, name), name, n - 1);
      FilterOutRemoveFirst(hs, name);
    }
  }

  /** The strip and a blocklist filter that does not list the name commute:
      the order in which the host runs the two listeners does not matter. */
  lemma {:induction false} RemoveFirstFilterOutCommute(hs: seq<Header>, name: string, blocked: seq<string>)
    requires name !in blocked
    ensures FilterOut(RemoveFirst(hs, name), blocked) == RemoveFirst(FilterOut(hs, blocked), name)
  {
    if hs != [] {
      RemoveFirstFilterOutCommute(hs[1..], name, blocked);
      if !IsNamed(hs[0], name) {
        assert ([hs[0]] + RemoveFirst(hs[1..], name))[1..] == RemoveFirst(hs[1..], name);
        if !Blocked(hs[0], blocked) {
          assert ([hs[0]] + FilterOut(hs[1..], blocked))[1..] == FilterOut(hs[1..], blocked);
        }
      } else {
        assert ([hs[0]] + FilterOut(hs[1..], blocked))[1..] == FilterOut(hs[1..], blocked);
      }
    }
  }

  /** A blocklist that does not list the name keeps every matching entry. */
  lemma {:induction false} FilterOutKeepsCount(hs: seq<Header>, name: string, blocked: seq<string>)
    requires name !in blocked
    ensures CountNamed(FilterOut(hs, blocked), name) == CountNamed(hs, name)
  {
    if hs != [] {
      FilterOutKeepsCount(hs[1..], name, blocked);
      if !Blocked(hs[0], blocked) {
        assert ([hs[0]] + FilterOut(hs[1..], blocked))[1..] == FilterOut(hs[1..], blocked);
      }
    }
  }

  /** The cookie strip after a blocklist that does not list the name, run a
      second time on its own output, changes it exactly when the input held
      two or more matching entries. */
  lemma StripAfterFilterIdempotentIff(hs: seq<Header>, name: string, blocked: seq<string>)
    requires name !in blocked
    ensures var once := RemoveFirst(FilterOut(hs, blocked), name);
            RemoveFirst(FilterOut(once, blocked), name) == once <==> CountNamed(hs, name) <= 1
  {
    var f := FilterOut(hs, blocked);
    var once := RemoveFirst(f, name);
    RemoveFirstFilterOutCommute(f, name, blocked);
    FilterOutIdempotent(hs, blocked);
    assert FilterOut(once, blocked) == once;
    RemoveFirstIdempotentIff(f, name);
    FilterOutKeepsCount(hs, name, blocked);
  }
}
