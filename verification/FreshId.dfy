/** Counter-made identifiers, a prefix and nine padded digits, and the search for an unused one. */
module FreshId {
  import opened Decimal

  const WIDTH: nat := 9
  const CALL_PREFIX: string := "call_"

  function FormatId(prefix: string, k: nat): string {
    prefix + Padded(k, WIDTH)
  }

  lemma FormatIdInjective(prefix: string, j: nat, k: nat)
    ensures FormatId(prefix, j) == FormatId(prefix, k) <==> j == k
  {
    if FormatId(prefix, j) == FormatId(prefix, k) {
      assert Padded(j, WIDTH) == FormatId(prefix, j)[|prefix|..];
      assert Padded(k, WIDTH) == FormatId(prefix, k)[|prefix|..];
      ValueOfPadded(j, WIDTH);
      ValueOfPadded(k, WIDTH);
    }
  }

  /** An identifier is exactly nine characters past its prefix below 10^9, and longer above. */
  lemma FormatIdLength(prefix: string, k: nat)
    ensures |FormatId(prefix, k)| >= |prefix| + WIDTH
    ensures |FormatId(prefix, k)| == |prefix| + WIDTH <==> k < 1_000_000_000
  {
    DigitsLength(k, WIDTH);
    calc {
      Pow10(9);
      10 * (10 * (10 * Pow10(6)));
      1000 * (10 * (10 * (10 * Pow10(3))));
      1_000_000 * (10 * (10 * (10 * Pow10(0))));
    }
  }

  /** An identifier is its prefix and at least nine decimal digits that read as its number. */
  lemma FormatIdReads(prefix: string, k: nat)
    ensures var id := FormatId(prefix, k);
            && prefix <= id && |id| >= |prefix| + 9 && ValueOf(id[|prefix|..]) == k
            && forall i | |prefix| <= i < |id| :: '0' <= id[i] <= '9'
  {
    var id, digits := FormatId(prefix, k), Digits(k);
    assert id[|prefix|..] == Padded(k, WIDTH);
    ValueOfPadded(k, WIDTH);
    assert forall i | 0 <= i < |digits| :: digits[i] in digits;
    assert forall i | 0 <= i < |Padded(k, WIDTH)| :: id[|prefix| + i] == Padded(k, WIDTH)[i];
  }

  /** `s` is the identifier of some number at or beyond `k`. */
  ghost predicate AtOrBeyond(prefix: string, k: nat, s: string) {
    exists j: nat :: j >= k && s == FormatId(prefix, j)
  }

  ghost function UsedFrom(prefix: string, k: nat, seen: set<string>): set<string> {
    set s | s in seen && AtOrBeyond(prefix, k, s)
  }

  /** Every used identifier the search walks past leaves the set of used
      identifiers at or beyond the counter, so the search cannot go on for ever. */
  lemma UsedFromShrinks(prefix: string, k: nat, seen: set<string>)
    requires FormatId(prefix, k) in seen
    ensures UsedFrom(prefix, k + 1, seen) < UsedFrom(prefix, k, seen)
  {
    var id := FormatId(prefix, k);
    assert AtOrBeyond(prefix, k, id);
    if AtOrBeyond(prefix, k + 1, id) {
      var j: nat :| j >= k + 1 && id == FormatId(prefix, j);
      FormatIdInjective(prefix, j, k);
    }
    forall s | s in UsedFrom(prefix, k + 1, seen)
      ensures s in UsedFrom(prefix, k, seen)
    {
      var j: nat :| j >= k + 1 && s == FormatId(prefix, j);
    }
    assert id in UsedFrom(prefix, k, seen) && id !in UsedFrom(prefix, k + 1, seen);
  }

  /** Takes the least number at or beyond the counter whose identifier is unused. */
  method NextUniqueId(prefix: string, counter: nat, seen: set<string>)
    returns (id: string, counter': nat, seen': set<string>)
    ensures counter' > counter && id == FormatId(prefix, counter' - 1)
    ensures id !in seen && seen' == seen + {id}
    ensures forall k: nat | counter <= k < counter' - 1 :: FormatId(prefix, k) in seen
  {
    counter' := counter;
    while true
      invariant counter' >= counter
      invariant forall k: nat | counter <= k < counter' :: FormatId(prefix, k) in seen
      decreases UsedFrom(prefix, counter', seen)
    {
      id := FormatId(prefix, counter');
      if id in seen {
        UsedFromShrinks(prefix, counter', seen);
      }
      counter' := counter' + 1;
      if id !in seen {
        seen' := seen + {id};
        return;
      }
    }
  }
}
