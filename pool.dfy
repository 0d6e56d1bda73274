/**
 The class pool of the timetable generator: the weekly hours table is
 expanded into one entry per lesson, topped up with randomly drawn subjects
 until every slot of the week has an entry, and then shuffled.

 Randomness is supplied by the caller: `draws` holds the results of the
 successive `random.choice(subjects)` calls, and `perm` is the permutation
 that `random.shuffle` applies to the pool.
 */
module ClassPool {

  type Subject = string

  /** The weekly hours table, in the insertion order of the source's dictionary. */
  type HoursTable = seq<(Subject, nat)>

  /** A dictionary never holds the same key twice. */
  predicate DistinctKeys(table: HoursTable) {
    forall k, l :: 0 <= k < l < |table| ==> table[k].0 != table[l].0
  }

  predicate IsKey(table: HoursTable, s: Subject) {
    exists k :: 0 <= k < |table| && table[k].0 == s
  }

  /** The sum of the weekly hours over the whole table. */
  function TotalHours(table: HoursTable): nat {
    if table == [] then 0 else TotalHours(table[..|table| - 1]) + table[|table| - 1].1
  }

  function Max(a: nat, b: nat): nat {
    if a < b then b else a
  }

  /** `[subject] * hours`: the multiset of the result holds `hours` copies of `subject` and nothing else. */
  function Repeat(s: Subject, n: nat): (r: seq<Subject>)
    ensures |r| == n
    ensures multiset(r)[s] == n
    ensures forall t :: t != s ==> multiset(r)[t] == 0
  {
    if n == 0 then [] else Repeat(s, n - 1) + [s]
  }

  /** The pool before padding: the entries of the table expanded one after the other. */
  function Expand(table: HoursTable): (r: seq<Subject>)
    ensures |r| == TotalHours(table)
  {
    if table == [] then []
    else
      var last := table[|table| - 1];
      Expand(table[..|table| - 1]) + Repeat(last.0, last.1)
  }

  /** One unfolding of Expand: the last entry's block comes after the rest. */
  lemma {:induction false} ExpandLast(table: HoursTable)
    requires table != []
    ensures Expand(table) == Expand(table[..|table| - 1]) + Repeat(table[|table| - 1].0, table[|table| - 1].1)
    ensures TotalHours(table) == TotalHours(table[..|table| - 1]) + table[|table| - 1].1
  {
  }

  /** Associativity stated once, so that the calculation in ExpandAppend stays cheap for the solver. */
  lemma {:induction false} ConcatAssoc(x: seq<Subject>, y: seq<Subject>, z: seq<Subject>)
    ensures (x + y) + z == x + (y + z)
  {
  }

  lemma {:induction false} ExpandAppend(a: HoursTable, b: HoursTable)
    ensures Expand(a + b) == Expand(a) + Expand(b)
    ensures TotalHours(a + b) == TotalHours(a) + TotalHours(b)
  {
    if b == [] {
      assert a + b == a;
    } else {
      var n := |b| - 1;
      var ab := a + b;
      assert ab[..|ab| - 1] == a + b[..n];
      assert ab[|ab| - 1] == b[n];
      ExpandAppend(a, b[..n]);
      ExpandLast(ab);
      ExpandLast(b);
      var tail := Repeat(b[n].0, b[n].1);
      calc {
        Expand(ab);
        Expand(ab[..|ab| - 1]) + Repeat(ab[|ab| - 1].0, ab[|ab| - 1].1);
        Expand(a + b[..n]) + tail;
        (Expand(a) + Expand(b[..n])) + tail;
        { ConcatAssoc(Expand(a), Expand(b[..n]), tail); }
        Expand(a) + (Expand(b[..n]) + tail);
        Expand(a) + Expand(b);
      }
    }
  }

  /** The table's entries appear in the pool as consecutive blocks, in table order. */
  lemma {:induction false} ExpandBlock(table: HoursTable, k: nat)
    requires k < |table|
    ensures TotalHours(table[..k]) + table[k].1 <= |Expand(table)|
    ensures Expand(table)[TotalHours(table[..k])..TotalHours(table[..k]) + table[k].1]
            == Repeat(table[k].0, table[k].1)
  {
    assert table == table[..k] + [table[k]] + table[k + 1..];
    ExpandAppend(table[..k] + [table[k]], table[k + 1..]);
    ExpandAppend(table[..k], [table[k]]);
    assert Expand([table[k]]) == Repeat(table[k].0, table[k].1) by {
      var single: HoursTable := [table[k]];
      assert single[..0] == [];
    }
  }

  lemma {:induction false} DistinctPrefix(table: HoursTable, n: nat)
    requires DistinctKeys(table) && n <= |table|
    ensures DistinctKeys(table[..n])
  {
    forall l, m | 0 <= l < m < n
      ensures table[..n][l].0 != table[..n][m].0
    {
      assert table[..n][l] == table[l];
      assert table[..n][m] == table[m];
    }
  }

  /** With distinct keys, the pool holds exactly `hours` copies of each entry's subject. */
  lemma {:induction false} ExpandCount(table: HoursTable, k: nat)
    requires DistinctKeys(table)
    requires k < |table|
    ensures multiset(Expand(table))[table[k].0] == table[k].1
  {
    var n := |table| - 1;
    var s := table[k].0;
    ExpandLast(table);
    var block := Repeat(table[n].0, table[n].1);
    assert multiset(Expand(table)) == multiset(Expand(table[..n])) + multiset(block);
    if k == n {
      forall l | 0 <= l < n
        ensures table[..n][l].0 != s
      {
        assert table[..n][l] == table[l];
      }
      ExpandAbsent(table[..n], s);
    } else {
      DistinctPrefix(table, n);
      assert table[..n][k] == table[k];
      assert table[n].0 != s;
      ExpandCount(table[..n], k);
    }
  }

  /** A subject that is not a key of the table does not occur in the pool. */
  lemma {:induction false} ExpandAbsent(table: HoursTable, s: Subject)
    requires !IsKey(table, s)
    ensures multiset(Expand(table))[s] == 0
  {
    if table != [] {
      var n := |table| - 1;
      forall k | 0 <= k < n
        ensures table[..n][k].0 != s
      {
        assert table[..n][k] == table[k];
      }
      ExpandAbsent(table[..n], s);
    }
  }

  lemma {:induction false} RepeatAt(s: Subject, n: nat, q: nat)
    requires q < n
    ensures Repeat(s, n)[q] == s
  {
    if q < n - 1 {
      RepeatAt(s, n - 1, q);
    }
  }

  /** Every position of the pool holds a key of the table. */
  lemma {:induction false} ExpandAt(table: HoursTable, q: nat)
    requires q < |Expand(table)|
    ensures IsKey(table, Expand(table)[q])
  {
    var n := |table| - 1;
    ExpandLast(table);
    var prefix := Expand(table[..n]);
    if q < |prefix| {
      ExpandAt(table[..n], q);
      var k :| 0 <= k < n && table[..n][k].0 == prefix[q];
      assert table[k] == table[..n][k];
    } else {
      RepeatAt(table[n].0, table[n].1, q - |prefix|);
    }
  }

  /** Lines 21-23: `classes += [subject] * hours` for every entry, in order. */
  method BuildPool(table: HoursTable) returns (classes: seq<Subject>)
    ensures classes == Expand(table)
    ensures |classes| == TotalHours(table)
  {
    classes := [];
    for k := 0 to |table|
      invariant classes == Expand(table[..k])
    {
      var (subject, hours) := table[k];
      assert table[..k + 1][..k] == table[..k];
      classes := classes + Repeat(subject, hours);
    }
    assert table[..|table|] == table;
  }

  /** The pool after padding: topped up with the first draws until it has `slots` entries. */
  function Padded(classes: seq<Subject>, slots: nat, draws: seq<Subject>): (r: seq<Subject>)
    requires |classes| + |draws| >= slots
    ensures |r| == Max(|classes|, slots)
    ensures r[..|classes|] == classes
  {
    if |classes| >= slots then classes else classes + draws[..slots - |classes|]
  }

  /** Lines 24-25: append `random.choice(subjects)` while the pool is shorter than the week. */
  method Pad(classes: seq<Subject>, ghost subjects: seq<Subject>, slots: nat, draws: seq<Subject>)
    returns (pool: seq<Subject>)
    requires forall k :: 0 <= k < |draws| ==> draws[k] in subjects
    requires |classes| + |draws| >= slots
    ensures pool == Padded(classes, slots, draws)
    ensures |pool| == Max(|classes|, slots)
    ensures pool[..|classes|] == classes
    ensures forall k :: |classes| <= k < |pool| ==> pool[k] in subjects
  {
    pool := classes;
    while |pool| < slots
      invariant |classes| <= |pool| <= Max(|classes|, slots)
      invariant pool == classes + draws[..|pool| - |classes|]
      decreases slots - |pool|
    {
      assert draws[..|pool| - |classes| + 1] == draws[..|pool| - |classes|] + [draws[|pool| - |classes|]];
      pool := pool + [draws[|pool| - |classes|]];
    }
  }

  /** Padding a pool that already fills the week changes nothing, and padding never removes an entry. */
  lemma {:induction false} PaddedLength(classes: seq<Subject>, slots: nat, draws: seq<Subject>)
    requires |classes| + |draws| >= slots
    ensures |classes| >= slots ==> Padded(classes, slots, draws) == classes
    ensures multiset(classes) <= multiset(Padded(classes, slots, draws))
  {
  }

  /** `perm` is a bijection on [0, n): `random.shuffle` on a list of length n. */
  predicate IsPermutation(perm: seq<nat>, n: nat) {
    && |perm| == n
    && (forall k :: 0 <= k < n ==> perm[k] < n)
    && (forall k, l :: 0 <= k < l < n ==> perm[k] != perm[l])
    && (forall i :: 0 <= i < n ==> i in perm)
  }

  predicate InRange(perm: seq<nat>, n: nat) {
    forall k :: 0 <= k < |perm| ==> perm[k] < n
  }

  /** The list in which position k holds the element the shuffle moved there from position perm[k]. */
  function Permute(xs: seq<Subject>, perm: seq<nat>): (r: seq<Subject>)
    requires InRange(perm, |xs|)
    ensures |r| == |perm|
  {
    seq(|perm|, k requires 0 <= k < |perm| => xs[perm[k]])
  }

  lemma {:induction false} PermuteSplit(xs: seq<Subject>, a: seq<nat>, b: seq<nat>)
    requires InRange(a, |xs|) && InRange(b, |xs|)
    ensures InRange(a + b, |xs|)
    ensures Permute(xs, a + b) == Permute(xs, a) + Permute(xs, b)
  {
  }

  /** The sequence without its element at position p. */
  function RemoveAt(perm: seq<nat>, p: nat): seq<nat>
    requires p < |perm|
  {
    seq(|perm| - 1, k requires 0 <= k < |perm| - 1 => if k < p then perm[k] else perm[k + 1])
  }

  lemma {:induction false} RemoveAtSplit(perm: seq<nat>, p: nat)
    requires p < |perm|
    ensures RemoveAt(perm, p) == perm[..p] + perm[p + 1..]
  {
  }

  lemma {:induction false} RemoveAtBounded(perm: seq<nat>, n: nat, p: nat)
    requires IsPermutation(perm, n + 1) && p < |perm| && perm[p] == n
    ensures forall k :: 0 <= k < n ==> RemoveAt(perm, p)[k] < n
  {
    var rest := RemoveAt(perm, p);
    forall k | 0 <= k < n
      ensures rest[k] < n
    {
      var k' := if k < p then k else k + 1;
      assert rest[k] == perm[k'] && k' != p;
    }
  }

  lemma {:induction false} RemoveAtInjective(perm: seq<nat>, n: nat, p: nat)
    requires IsPermutation(perm, n + 1) && p < |perm|
    ensures forall k, l :: 0 <= k < l < n ==> RemoveAt(perm, p)[k] != RemoveAt(perm, p)[l]
  {
    var rest := RemoveAt(perm, p);
    forall k, l | 0 <= k < l < n
      ensures rest[k] != rest[l]
    {
      var k', l' := if k < p then k else k + 1, if l < p then l else l + 1;
      assert rest[k] == perm[k'] && rest[l] == perm[l'] && k' < l';
    }
  }

  lemma {:induction false} RemoveAtCovers(perm: seq<nat>, n: nat, p: nat)
    requires IsPermutation(perm, n + 1) && p < |perm| && perm[p] == n
    ensures forall i :: 0 <= i < n ==> i in RemoveAt(perm, p)
  {
    var rest := RemoveAt(perm, p);
    forall i | 0 <= i < n
      ensures i in rest
    {
      assert i in perm;
      var q :| 0 <= q < |perm| && perm[q] == i;
      assert q != p;
      var q' := if q < p then q else q - 1;
      assert rest[q'] == i;
    }
  }

  /** The position that receives the last element; removing it leaves a permutation of one less. */
  lemma {:induction false} DropLast(perm: seq<nat>, n: nat) returns (p: nat)
    requires IsPermutation(perm, n + 1)
    ensures p < |perm| && perm[p] == n
    ensures IsPermutation(RemoveAt(perm, p), n)
  {
    assert n in perm;
    p :| 0 <= p < |perm| && perm[p] == n;
    RemoveAtBounded(perm, n, p);
    RemoveAtInjective(perm, n, p);
    RemoveAtCovers(perm, n, p);
  }

  /** Positions below n read the same element from a list and from its first n elements. */
  lemma {:induction false} PermutePrefix(xs: seq<Subject>, perm: seq<nat>, n: nat)
    requires n <= |xs| && InRange(perm, n)
    ensures InRange(perm, |xs|)
    ensures Permute(xs, perm) == Permute(xs[..n], perm)
  {
  }

  /** The parts of a permutation before and after position p map into the shorter list. */
  lemma {:induction false} SplitInRange(perm: seq<nat>, p: nat, n: nat)
    requires p < |perm| && InRange(RemoveAt(perm, p), n)
    ensures InRange(perm[..p], n) && InRange(perm[p + 1..], n)
    ensures RemoveAt(perm, p) == perm[..p] + perm[p + 1..]
  {
    var rest := RemoveAt(perm, p);
    var before, after := perm[..p], perm[p + 1..];
    forall k | 0 <= k < |before| ensures before[k] < n { assert before[k] == rest[k]; }
    forall k | 0 <= k < |after| ensures after[k] < n { assert after[k] == rest[p + k]; }
    RemoveAtSplit(perm, p);
  }

  /** Applying a permutation that sends the last element to position p places it between the two parts. */
  lemma {:induction false} PermuteAt(xs: seq<Subject>, perm: seq<nat>, p: nat)
    requires xs != [] && p < |perm| && perm[p] == |xs| - 1
    requires InRange(perm[..p], |xs| - 1) && InRange(perm[p + 1..], |xs| - 1)
    ensures InRange(perm, |xs|)
    ensures Permute(xs, perm)
            == Permute(xs[..|xs| - 1], perm[..p]) + [xs[|xs| - 1]] + Permute(xs[..|xs| - 1], perm[p + 1..])
  {
    var n := |xs| - 1;
    var before, after := perm[..p], perm[p + 1..];
    assert perm == before + [n] + after;
    PermuteSplit(xs, before, [n]);
    PermuteSplit(xs, before + [n], after);
    PermutePrefix(xs, before, n);
    PermutePrefix(xs, after, n);
    assert Permute(xs, [n]) == [xs[n]];
  }

  /** Applying a permutation that sends the last element to position p. */
  lemma {:induction false} PermuteAround(xs: seq<Subject>, perm: seq<nat>, p: nat)
    requires xs != [] && p < |perm| && perm[p] == |xs| - 1
    requires InRange(RemoveAt(perm, p), |xs| - 1)
    ensures InRange(perm, |xs|)
    ensures multiset(Permute(xs, perm))
            == multiset(Permute(xs[..|xs| - 1], RemoveAt(perm, p))) + multiset{xs[|xs| - 1]}
  {
    var n := |xs| - 1;
    SplitInRange(perm, p, n);
    PermuteAt(xs, perm, p);
    PermuteSplit(xs[..n], perm[..p], perm[p + 1..]);
    var front, back := Permute(xs[..n], perm[..p]), Permute(xs[..n], perm[p + 1..]);
    calc {
      multiset(front + [xs[n]] + back);
      multiset(front) + multiset{xs[n]} + multiset(back);
      multiset(front + back) + multiset{xs[n]};
    }
  }

  /** Line 26: shuffling, as applying a permutation, keeps the multiset of the pool. */
  lemma {:induction false} PermuteMultiset(xs: seq<Subject>, perm: seq<nat>)
    requires IsPermutation(perm, |xs|)
    ensures InRange(perm, |xs|)
    ensures |Permute(xs, perm)| == |xs|
    ensures multiset(Permute(xs, perm)) == multiset(xs)
  {
    if xs != [] {
      var n := |xs| - 1;
      var p := DropLast(perm, n);
      PermuteMultiset(xs[..n], RemoveAt(perm, p));
      PermuteAround(xs, perm, p);
      assert xs == xs[..n] + [xs[n]];
    }
  }
}
