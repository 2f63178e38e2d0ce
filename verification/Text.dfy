/** Substring search and decimal numerals, as the row search of the batch queue uses them. */
module Text {
  predicate OccursAt(s: string, p: string, i: nat) {
    i + |p| <= |s| && s[i..i + |p|] == p
  }

  /** String.includes. */
  predicate Contains(s: string, p: string) {
    exists i: nat :: i <= |s| && OccursAt(s, p, i)
  }

  function Digit(d: nat): char
    requires d < 10
  {
    ('0' as int + d) as char
  }

  predicate IsDigit(c: char) { '0' <= c <= '9' }

  function Decimal(n: nat): (s: string)
    ensures |s| > 0
    ensures forall k :: 0 <= k < |s| ==> IsDigit(s[k])
  {
    if n < 10 then [Digit(n)] else Decimal(n / 10) + [Digit(n % 10)]
  }

  lemma {:induction false} DecimalLength(m: nat, n: nat)
    requires m <= n
    ensures |Decimal(m)| <= |Decimal(n)|
  {
    if m >= 10 {
      DecimalLength(m / 10, n / 10);
    }
  }

  /** The number that a numeral says, read from its first digit on. */
  function Value(s: string): int {
    if s == "" then 0 else 10 * Value(s[..|s| - 1]) + (s[|s| - 1] as int - '0' as int)
  }

  /** Decimal writes every number so that reading it gives the number back, without zeros in front. */
  lemma {:induction false} DecimalIs(n: nat)
    ensures Value(Decimal(n)) == n
    ensures Decimal(n)[0] == '0' ==> n == 0 && Decimal(n) == "0"
  {
    if n >= 10 {
      DecimalIs(n / 10);
      assert Decimal(n)[..|Decimal(n)| - 1] == Decimal(n / 10);
    } else {
      assert Decimal(n)[..0] == "";
    }
  }

  lemma {:induction false} DecimalInjective(m: nat, n: nat)
    requires Decimal(m) == Decimal(n)
    ensures m == n
  {
    var s, t := Decimal(m), Decimal(n);
    assert s[|s| - 1] == Digit(m % 10) && t[|t| - 1] == Digit(n % 10);
    if m >= 10 && n >= 10 {
      assert s[..|s| - 1] == Decimal(m / 10) && t[..|t| - 1] == Decimal(n / 10);
      DecimalInjective(m / 10, n / 10);
    }
  }

  const Mark := "-job-"

  /** The text that the queue searches for to find row i. */
  function Needle(i: nat): string { Mark + Decimal(i) }

  /** The identifier a row carries until it completes. */
  function RowName(batchId: string, i: nat): string { batchId + Needle(i) }

  lemma RowNameContains(batchId: string, i: nat)
    ensures Contains(RowName(batchId, i), Needle(i))
  {
    assert OccursAt(RowName(batchId, i), Needle(i), |batchId|);
  }

  /** Where a needle shifted by k first disagrees with another: at its mark, or just after it. */
  function Disagreement(k: nat): nat { if k == 4 then 1 else 0 }

  lemma NeedlesDisagree(i: nat, j: nat, k: nat)
    requires 0 < k < |Needle(i)|
    ensures k + Disagreement(k) < |Needle(i)| && Disagreement(k) < |Needle(j)|
    ensures Needle(i)[k + Disagreement(k)] != Needle(j)[Disagreement(k)]
  {
    assert IsDigit(Needle(i)[5]);
    if k >= 5 {
      assert IsDigit(Needle(i)[k]);
    }
  }

  /** An occurrence of a needle lies inside the batch id or right at the mark that follows it. */
  lemma OccurrencePlace(batchId: string, j: nat, i: nat, p: nat)
    requires OccursAt(RowName(batchId, j), Needle(i), p)
    ensures p + |Needle(i)| <= |batchId| || p == |batchId|
  {
    var t, n, tail := RowName(batchId, j), Needle(i), Needle(j);
    assert forall k :: 0 <= k < |n| ==> t[p + k] == t[p..p + |n|][k] == n[k];
    assert forall k :: 0 <= k < |tail| ==> t[|batchId| + k] == tail[k];
    if p < |batchId| < p + |n| {
      var k := |batchId| - p;
      NeedlesDisagree(i, j, k);
    } else if |batchId| < p {
      var k := p - |batchId|;
      NeedlesDisagree(j, i, k);
    }
  }

  lemma NeedlePrefix(i: nat, j: nat)
    requires Needle(i) <= Needle(j)
    ensures Decimal(i) <= Decimal(j)
  {
    hide Decimal;
    assert forall k :: 0 <= k < |Decimal(i)| ==> Decimal(i)[k] == Needle(i)[5 + k] == Needle(j)[5 + k] == Decimal(j)[k];
  }

  lemma OccurrenceMeans(batchId: string, j: nat, i: nat, p: nat)
    requires OccursAt(RowName(batchId, j), Needle(i), p)
    ensures Contains(batchId, Needle(i)) || Decimal(i) <= Decimal(j)
  {
    var t, n := RowName(batchId, j), Needle(i);
    OccurrencePlace(batchId, j, i, p);
    hide Decimal;
    if p == |batchId| {
      assert t[p..] == Needle(j);
      assert Needle(j)[..|n|] == t[p..p + |n|] == n;
      NeedlePrefix(i, j);
    } else {
      assert batchId[p..p + |n|] == t[p..p + |n|];
      assert OccursAt(batchId, n, p);
    }
  }

  lemma BatchIdContains(batchId: string, j: nat, i: nat)
    requires Contains(batchId, Needle(i))
    ensures Contains(RowName(batchId, j), Needle(i))
  {
    hide Decimal;
    var t, n := RowName(batchId, j), Needle(i);
    var p: nat :| p <= |batchId| && OccursAt(batchId, n, p);
    assert t[p..p + |n|] == batchId[p..p + |n|];
    assert OccursAt(t, n, p);
  }

  lemma PrefixContains(batchId: string, j: nat, i: nat)
    requires Decimal(i) <= Decimal(j)
    ensures Contains(RowName(batchId, j), Needle(i))
  {
    hide Decimal;
    var t, n := RowName(batchId, j), Needle(i);
    assert t[|batchId|..|batchId| + |n|] == Mark + Decimal(j)[..|Decimal(i)|] == n;
    assert OccursAt(t, n, |batchId|);
  }

  /** A row's name contains the needle of i exactly when the batch id does or i's digits begin the row's. */
  lemma NameContainsIff(batchId: string, j: nat, i: nat)
    ensures Contains(RowName(batchId, j), Needle(i)) <==> Contains(batchId, Needle(i)) || Decimal(i) <= Decimal(j)
  {
    var t, n := RowName(batchId, j), Needle(i);
    if Contains(t, n) {
      var p: nat :| p <= |t| && OccursAt(t, n, p);
      OccurrenceMeans(batchId, j, i, p);
    }
    if Contains(batchId, n) {
      BatchIdContains(batchId, j, i);
    }
    if Decimal(i) <= Decimal(j) {
      PrefixContains(batchId, j, i);
    }
  }

  /** Among the rows before i none has a number that i's digits begin. */
  lemma NoEarlierPrefix(i: nat, j: nat)
    requires j < i
    ensures !(Decimal(i) <= Decimal(j))
  {
    DecimalLength(j, i);
    if Decimal(i) <= Decimal(j) {
      assert Decimal(j)[..|Decimal(i)|] == Decimal(j);
      DecimalInjective(i, j);
    }
  }

  // ---------------------------------------------------------------- generated ids

  predicate AllDigits(s: string) { s != "" && forall k :: 0 <= k < |s| ==> IsDigit(s[k]) }

  lemma OccursChar(t: string, n: string, o: nat, j: nat)
    requires OccursAt(t, n, o) && j < |n|
    ensures t[o + j] == n[j]
  {
    assert t[o..o + |n|][j] == t[o + j];
  }

  /** A mark in a text that ends in a dash and digits lies before the dash, or has it for its own second dash. */
  lemma MarkPlace(head: string, d: string, k: string, o: nat)
    requires AllDigits(d) && AllDigits(k) && OccursAt(head + "-" + d, Mark + k, o)
    ensures o + 5 + |k| <= |head| || (o + 4 == |head| && head[o..] == "-job" && k <= d)
  {
    var t, n := head + "-" + d, Mark + k;
    if o + |n| > |head| {
      OccursChar(t, n, o, 0);
      OccursChar(t, n, o, 1);
      if o < |head| {
        OccursChar(t, n, o, |head| - o);
        assert o + 4 == |head|;
        assert t[o..o + |n|][..4] == t[o..o + 4] == head[o..];
        assert t[o..o + |n|][5..] == t[o + 5..o + |n|] == d[..|k|];
      }
    }
  }

  /** The ids of generateJobId: what identifies the job, a dash and the time. */
  function GeneratedId(head: string, time: nat): string { head + "-" + Decimal(time) }

  lemma GeneratedMeans(head: string, time: nat, k: nat)
    requires Contains(GeneratedId(head, time), Needle(k))
    ensures Contains(head, Needle(k)) || (|head| >= 4 && head[|head| - 4..] == "-job" && Decimal(k) <= Decimal(time))
  {
    hide Decimal;
    var t, n := GeneratedId(head, time), Needle(k);
    var o: nat :| o <= |t| && OccursAt(t, n, o);
    MarkPlace(head, Decimal(time), Decimal(k), o);
    if o + |n| <= |head| {
      assert head[o..o + |n|] == t[o..o + |n|];
      assert OccursAt(head, n, o);
    }
  }

  /**
    A generated id contains the mark of row k exactly when what identifies the job does, or when that ends in the
    mark's letters and the digits of k begin the time.
  */
  lemma GeneratedIff(head: string, time: nat, k: nat)
    ensures Contains(GeneratedId(head, time), Needle(k)) <==>
      Contains(head, Needle(k)) || (|head| >= 4 && head[|head| - 4..] == "-job" && Decimal(k) <= Decimal(time))
  {
    hide Decimal;
    var t, n, d := GeneratedId(head, time), Needle(k), Decimal(time);
    if Contains(t, n) {
      GeneratedMeans(head, time, k);
    }
    if Contains(head, n) {
      var o: nat :| o <= |head| && OccursAt(head, n, o);
      assert t[o..o + |n|] == head[o..o + |n|];
      assert OccursAt(t, n, o);
    }
    if |head| >= 4 && head[|head| - 4..] == "-job" && Decimal(k) <= d {
      var o := |head| - 4;
      assert t[o..o + |n|] == head[o..] + "-" + d[..|Decimal(k)|] == n;
      assert OccursAt(t, n, o);
    }
  }
}
