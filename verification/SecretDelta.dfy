/** The findings an edit introduces: a multiset difference computed with a table of counts. */
module SecretDelta {

  datatype Finding = Finding(rule: string, line: nat, column: nat)
  datatype Match = Match(finding: Finding, fingerprint: string)

  function Prints(matches: seq<Match>): seq<string> {
    seq(|matches|, i requires 0 <= i < |matches| => matches[i].fingerprint)
  }

  /** The matches of `after` that `counts` does not account for, in order. */
  function Unaccounted(counts: multiset<string>, after: seq<Match>): seq<Match> {
    if after == [] then []
    else if after[0].fingerprint in counts then Unaccounted(counts - multiset{after[0].fingerprint}, after[1..])
    else [after[0]] + Unaccounted(counts, after[1..])
  }

  function Findings(matches: seq<Match>): seq<Finding> {
    seq(|matches|, i requires 0 <= i < |matches| => matches[i].finding)
  }

  ghost predicate Tallies(table: map<string, nat>, counts: multiset<string>) {
    forall p :: counts[p] == if p in table then table[p] else 0
  }

  /** The table of how often each fingerprint occurs. */
  method CountPrints(before: seq<Match>) returns (table: map<string, nat>)
    ensures Tallies(table, multiset(Prints(before)))
  {
    table := map[];
    for i := 0 to |before|
      invariant Tallies(table, multiset(Prints(before[..i])))
    {
      var p := before[i].fingerprint;
      assert Prints(before[..i + 1]) == Prints(before[..i]) + [p];
      table := table[p := (if p in table then table[p] else 0) + 1];
    }
    assert before[..|before|] == before;
  }

  method FindIntroduced(before: seq<Match>, after: seq<Match>) returns (introduced: seq<Finding>)
    ensures introduced == Findings(Unaccounted(multiset(Prints(before)), after))
  {
    var table := CountPrints(before);
    introduced := [];
    ghost var counts := multiset(Prints(before));
    ghost var all := Unaccounted(counts, after);
    ghost var taken: seq<Match> := [];
    assert after[0..] == after;
    for i := 0 to |after|
      invariant introduced == Findings(taken) && Tallies(table, counts)
      invariant all == taken + Unaccounted(counts, after[i..])
    {
      var p := after[i].fingerprint;
      UnaccountedAt(counts, after, i);
      assert Findings(taken + [after[i]]) == Findings(taken) + [after[i].finding];
      assert p in counts <==> p in table && table[p] > 0;
      assert taken + ([after[i]] + Unaccounted(counts, after[i + 1..])) ==
             taken + [after[i]] + Unaccounted(counts, after[i + 1..]);
      var remaining := if p in table then table[p] else 0;
      if remaining > 0 {
        table := table[p := remaining - 1];
        counts := counts - multiset{p};
      } else {
        introduced := introduced + [after[i].finding];
        taken := taken + [after[i]];
      }
    }
    assert after[|after|..] == [];
  }

  lemma UnaccountedAt(counts: multiset<string>, after: seq<Match>, i: nat)
    requires i < |after|
    ensures Unaccounted(counts, after[i..]) ==
            if after[i].fingerprint in counts then Unaccounted(counts - multiset{after[i].fingerprint}, after[i + 1..])
            else [after[i]] + Unaccounted(counts, after[i + 1..])
  {
    assert after[i..][0] == after[i] && after[i..][1..] == after[i + 1..];
  }

  /** For each fingerprint, as many findings are introduced as it occurs more often after than before. */
  lemma {:induction false} IntroducedIsDifference(counts: multiset<string>, after: seq<Match>)
    ensures multiset(Prints(Unaccounted(counts, after))) == multiset(Prints(after)) - counts
    decreases |after|
  {
    if after != [] {
      var p, rest := after[0].fingerprint, after[1..];
      PrintsCons(after[0], rest);
      assert after == [after[0]] + rest;
      if p in counts {
        IntroducedIsDifference(counts - multiset{p}, rest);
      } else {
        IntroducedIsDifference(counts, rest);
        PrintsCons(after[0], Unaccounted(counts, rest));
      }
    }
  }

  lemma PrintsCons(m: Match, rest: seq<Match>)
    ensures multiset(Prints([m] + rest)) == multiset{m.fingerprint} + multiset(Prints(rest))
  {
    assert Prints([m] + rest) == [m.fingerprint] + Prints(rest);
  }

  /** Nothing is introduced exactly when no fingerprint occurs more often than before. */
  lemma NothingIntroducedIff(before: seq<Match>, after: seq<Match>)
    ensures Unaccounted(multiset(Prints(before)), after) == [] <==> multiset(Prints(after)) <= multiset(Prints(before))
  {
    var counts := multiset(Prints(before));
    IntroducedIsDifference(counts, after);
    var more := Unaccounted(counts, after);
    if more != [] {
      assert Prints(more)[0] in multiset(Prints(more));
    }
    if !(multiset(Prints(after)) <= counts) {
      var p :| multiset(Prints(after))[p] > counts[p];
      assert p in multiset(Prints(after)) - counts;
    }
  }

  /** How many matches have the fingerprint. */
  function Times(matches: seq<Match>, p: string): nat {
    if matches == [] then 0
    else Times(matches[1..], p) + if matches[0].fingerprint == p then 1 else 0
  }

  lemma {:induction false} PrintsTimes(matches: seq<Match>, p: string)
    ensures multiset(Prints(matches))[p] == Times(matches, p)
  {
    if matches != [] {
      PrintsTimes(matches[1..], p);
      PrintsCons(matches[0], matches[1..]);
      assert matches == [matches[0]] + matches[1..];
    }
  }

  /** No fingerprint is found more often in `after` than in `before`. */
  ghost predicate NoMore(before: seq<Match>, after: seq<Match>) {
    forall p :: Times(after, p) <= Times(before, p)
  }

  lemma NothingIntroducedTimes(before: seq<Match>, after: seq<Match>)
    ensures Unaccounted(multiset(Prints(before)), after) == [] <==> NoMore(before, after)
  {
    NothingIntroducedIff(before, after);
    if Unaccounted(multiset(Prints(before)), after) == [] {
      forall p ensures Times(after, p) <= Times(before, p) {
        PrintsTimes(before, p);
        PrintsTimes(after, p);
      }
    } else {
      var p :| multiset(Prints(after))[p] > multiset(Prints(before))[p];
      PrintsTimes(before, p);
      PrintsTimes(after, p);
    }
  }
}
