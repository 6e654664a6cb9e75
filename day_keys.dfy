/** Day keys and their order.
    A build record is grouped under the first ten characters of its
    `created_at` timestamp (`YYYY-MM-DD` for an ISO timestamp), and the
    distinct keys are sorted with the default string order, which is the
    lexicographic order on characters. For fixed-width ISO dates that order
    is the chronological one. */
module DayKeys {

  /** One row of the build history. */
  datatype BuildRecord = BuildRecord(createdAt: string, duration: int, summaryStatus: string)

  /** The day a record belongs to: `created_at.slice(0, 10)`, which keeps a
      shorter string whole. */
  function DayKey(r: BuildRecord): (k: string)
    ensures |k| == if |r.createdAt| < 10 then |r.createdAt| else 10
    ensures k <= r.createdAt
  {
    if |r.createdAt| <= 10 then r.createdAt else r.createdAt[..10]
  }

  /** The default string order: compare character by character; a proper
      prefix comes first. */
  predicate LexLess(a: string, b: string): (less: bool)
    ensures |a| < |b| && a == b[..|a|] ==> less
    ensures less ==> a != b
  {
    if |a| == 0 then |b| > 0
    else if |b| == 0 then false
    else if a[0] != b[0] then a[0] < b[0]
    else LexLess(a[1..], b[1..])
  }

  lemma {:induction false} LexTransitive(a: string, b: string, c: string)
    requires LexLess(a, b) && LexLess(b, c)
    ensures LexLess(a, c)
  {
    if |a| > 0 && |b| > 0 && |c| > 0 && a[0] == b[0] && b[0] == c[0] {
      LexTransitive(a[1..], b[1..], c[1..]);
    }
  }

  /** Any two different strings are ordered one way or the other. */
  lemma {:induction false} LexTotal(a: string, b: string)
    requires a != b
    ensures LexLess(a, b) || LexLess(b, a)
  {
    if |a| > 0 && |b| > 0 && a[0] == b[0] {
      assert a == [a[0]] + a[1..] && b == [b[0]] + b[1..];
      LexTotal(a[1..], b[1..]);
    }
  }

  lemma {:induction false} LexAsymmetric(a: string, b: string)
    requires LexLess(a, b)
    ensures !LexLess(b, a)
  {
    if |a| > 0 && |b| > 0 && a[0] == b[0] {
      LexAsymmetric(a[1..], b[1..]);
    }
  }

  /** Every key is strictly before every later key: sorted, without duplicates. */
  ghost predicate StrictlyAscending(ks: seq<string>)
  {
    forall i, j :: 0 <= i < j < |ks| ==> LexLess(ks[i], ks[j])
  }

  /** Adds one key to a sorted list of distinct keys, keeping it sorted and
      distinct. */
  function InsertKey(k: string, ks: seq<string>): (r: seq<string>)
    requires StrictlyAscending(ks)
    ensures StrictlyAscending(r)
    ensures forall x :: x in r <==> x == k || x in ks
    ensures |r| == if k in ks then |ks| else |ks| + 1
  {
    if ks == [] then [k]
    else if k == ks[0] then ks
    else if LexLess(k, ks[0]) then
      PrependKey(k, ks);
      [k] + ks
    else
      LexTotal(k, ks[0]);
      var rest := InsertKey(k, ks[1..]);
      assert forall x :: x in rest ==> LexLess(ks[0], x);
      [ks[0]] + rest
  }

  /** A key before the first of a sorted list is before all of them. */
  lemma PrependKey(k: string, ks: seq<string>)
    requires StrictlyAscending(ks) && |ks| > 0 && LexLess(k, ks[0])
    ensures StrictlyAscending([k] + ks) && k !in ks
  {
    forall j | 0 <= j < |ks| ensures LexLess(k, ks[j]) {
      if j > 0 { LexTransitive(k, ks[0], ks[j]); }
    }
  }

  /** A key after the head of one sorted list is after the head of any
      other sorted list with the same keys and the same head. */
  lemma InTail(a: seq<string>, b: seq<string>, x: string)
    requires StrictlyAscending(a) && |a| > 0 && |b| > 0 && a[0] == b[0]
    requires forall y :: y in a <==> y in b
    requires x in a[1..]
    ensures x in b[1..]
  {
    var i :| 1 <= i < |a| && a[i] == x;
    assert LexLess(a[0], x);
    assert x in b;
    var j :| 0 <= j < |b| && b[j] == x;
    assert b[1..][j - 1] == x;
  }

  /** Two sorted lists of distinct keys holding the same keys are the same
      list: sorting the set of day keys has exactly one outcome. */
  lemma {:induction false} AscendingUnique(a: seq<string>, b: seq<string>)
    requires StrictlyAscending(a) && StrictlyAscending(b)
    requires forall x :: x in a <==> x in b
    ensures a == b
  {
    assert (a != [] ==> a[0] in b) && (b != [] ==> b[0] in a);
    if a != [] && b != [] {
      if a[0] != b[0] {
        assert b[0] in a && a[0] in b;
        var i :| 0 <= i < |a| && a[i] == b[0];
        var j :| 0 <= j < |b| && b[j] == a[0];
        assert LexLess(a[0], a[i]) && LexLess(b[0], b[j]);
        LexAsymmetric(a[0], a[i]);
      }
      forall x ensures x in a[1..] ==> x in b[1..] {
        if x in a[1..] { InTail(a, b, x); }
      }
      forall x ensures x in b[1..] ==> x in a[1..] {
        if x in b[1..] { InTail(b, a, x); }
      }
      AscendingUnique(a[1..], b[1..]);
      assert a == [a[0]] + a[1..] && b == [b[0]] + b[1..];
    }
  }

  /** A `YYYY-MM-DD` date: ten characters, digits except for the two dashes. */
  ghost predicate IsoDate(s: string)
  {
    && |s| == 10 && s[4] == '-' && s[7] == '-'
    && forall i :: 0 <= i < 10 && i != 4 && i != 7 ==> '0' <= s[i] <= '9'
  }

  function Digit(c: char): int
  {
    c as int - '0' as int
  }

  function Year(s: string): int
    requires |s| == 10
  {
    1000 * Digit(s[0]) + 100 * Digit(s[1]) + 10 * Digit(s[2]) + Digit(s[3])
  }

  function Month(s: string): int
    requires |s| == 10
  {
    10 * Digit(s[5]) + Digit(s[6])
  }

  function Day(s: string): int
    requires |s| == 10
  {
    10 * Digit(s[8]) + Digit(s[9])
  }

  /** Calendar order: by year, then month, then day. */
  ghost predicate Earlier(a: string, b: string)
    requires |a| == 10 && |b| == 10
  {
    || Year(a) < Year(b)
    || (Year(a) == Year(b) && Month(a) < Month(b))
    || (Year(a) == Year(b) && Month(a) == Month(b) && Day(a) < Day(b))
  }

  /** Of two strings of the same length, the smaller agrees with the larger up
      to some position and has the smaller character there. */
  lemma {:induction false} FirstDifference(a: string, b: string) returns (i: nat)
    requires |a| == |b| && LexLess(a, b)
    ensures i < |a| && a[i] < b[i]
    ensures forall j :: 0 <= j < i ==> a[j] == b[j]
  {
    if a[0] < b[0] {
      i := 0;
    } else {
      var i' := FirstDifference(a[1..], b[1..]);
      i := i' + 1;
      forall j | 0 <= j < i ensures a[j] == b[j] {
        if j > 0 { assert a[1..][j - 1] == b[1..][j - 1]; }
      }
    }
  }

  /** For `YYYY-MM-DD` keys the string order used by the sort is the
      calendar order, so the ordered days are chronological. */
  lemma IsoOrderIsChronological(a: string, b: string)
    requires IsoDate(a) && IsoDate(b)
    ensures LexLess(a, b) <==> Earlier(a, b)
  {
    if LexLess(a, b) {
      LexLessIsEarlier(a, b);
    } else if a != b {
      LexTotal(a, b);
      LexLessIsEarlier(b, a);
    }
  }

  lemma LexLessIsEarlier(a: string, b: string)
    requires IsoDate(a) && IsoDate(b) && LexLess(a, b)
    ensures Earlier(a, b) && !Earlier(b, a)
  {
    var i := FirstDifference(a, b);
    assert i != 4 && i != 7;
    assert forall j :: 0 <= j < 10 && j != 4 && j != 7 ==> 0 <= Digit(a[j]) <= 9 && 0 <= Digit(b[j]) <= 9;
    assert Digit(a[i]) < Digit(b[i]);
  }
}
