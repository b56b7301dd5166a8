/** The bounded, ranked leaderboard: append the new entry, sort descending by
    power with a stable sort, keep the first ten. */
module Leaderboard {

  /** One recorded release (FartEntry in the source). */
  datatype Entry = Entry(id: int, address: string, power: int, timestamp: int)

  /** How many entries the leaderboard keeps. */
  const Capacity: nat := 10

  function Min(a: int, b: int): int {
    if a <= b then a else b
  }

  /** Non-increasing by power: the order the comparator `b.power - a.power` asks for. */
  predicate Sorted(s: seq<Entry>) {
    forall i, j :: 0 <= i < j < |s| ==> s[i].power >= s[j].power
  }

  /** Every entry of `s` has at least power `p`. */
  predicate AllAtLeast(s: seq<Entry>, p: int) {
    forall i :: 0 <= i < |s| ==> s[i].power >= p
  }

  /** Every entry of `s` has power below `p`. */
  predicate AllBelow(s: seq<Entry>, p: int) {
    forall i :: 0 <= i < |s| ==> s[i].power < p
  }

  /** Number of entries whose power is at least `p`. */
  function CountAtLeast(s: seq<Entry>, p: int): (n: nat)
    ensures n <= |s|
  {
    if |s| == 0 then 0
    else (if s[0].power >= p then 1 else 0) + CountAtLeast(s[1..], p)
  }

  /** The entries of power exactly `p`, in their order in `s`. */
  function WithPower(s: seq<Entry>, p: int): seq<Entry> {
    if |s| == 0 then []
    else (if s[0].power == p then [s[0]] else []) + WithPower(s[1..], p)
  }

  /** Places `e` after every leading entry whose power is at least its own;
      entries of equal power keep arriving first, which is what a stable sort
      does with a later element. */
  function Insert(e: Entry, s: seq<Entry>): (r: seq<Entry>)
    ensures |r| == |s| + 1
  {
    if |s| == 0 then [e]
    else if s[0].power < e.power then [e] + s
    else [s[0]] + Insert(e, s[1..])
  }

  /** Insertion adds exactly the new entry. */
  lemma {:induction false} InsertPermutes(e: Entry, s: seq<Entry>)
    ensures multiset(Insert(e, s)) == multiset(s) + multiset{e}
    decreases |s|
  {
    if |s| > 0 && s[0].power >= e.power {
      InsertPermutes(e, s[1..]);
      assert s == [s[0]] + s[1..];
    }
  }

  /** Inserting into a sorted board keeps it sorted. */
  lemma {:induction false} InsertSorted(e: Entry, s: seq<Entry>)
    requires Sorted(s)
    ensures Sorted(Insert(e, s))
    decreases |s|
  {
    if |s| > 0 && s[0].power >= e.power {
      var rest := Insert(e, s[1..]);
      assert Insert(e, s) == [s[0]] + rest;
      SortedTail(s);
      InsertSorted(e, s[1..]);
      InsertAtMost(e, s[1..], s[0].power);
      ConsSorted(s[0], rest);
    }
  }

  /** The tail of a sorted board is sorted and lies at or below its head. */
  lemma SortedTail(s: seq<Entry>)
    requires Sorted(s) && |s| > 0
    ensures Sorted(s[1..]) && AllAtMost(s[1..], s[0].power)
  {
  }

  /** A head at or above a sorted tail gives a sorted board. */
  lemma ConsSorted(x: Entry, t: seq<Entry>)
    requires Sorted(t) && AllAtMost(t, x.power)
    ensures Sorted([x] + t)
  {
    var r := [x] + t;
    forall i, j | 0 <= i < j < |r|
      ensures r[i].power >= r[j].power
    {
      assert r[j] == t[j - 1];
      if i > 0 {
        assert r[i] == t[i - 1];
      }
    }
  }

  /** No entry of `s` has more than power `q`. */
  predicate AllAtMost(s: seq<Entry>, q: int) {
    forall i :: 0 <= i < |s| ==> s[i].power <= q
  }

  /** Inserting an entry of at most `q` into a board of at most `q` stays at most `q`. */
  lemma {:induction false} InsertAtMost(e: Entry, s: seq<Entry>, q: int)
    requires AllAtMost(s, q) && e.power <= q
    ensures AllAtMost(Insert(e, s), q)
    decreases |s|
  {
    if |s| > 0 && s[0].power >= e.power {
      InsertAtMost(e, s[1..], q);
      var r := [s[0]] + Insert(e, s[1..]);
      assert Insert(e, s) == r;
      forall i | 0 <= i < |r|
        ensures r[i].power <= q
      {
        if i > 0 {
          assert r[i] == Insert(e, s[1..])[i - 1];
        }
      }
    }
  }

  /** Stable sort, descending by power (insertion sort from the left, so an
      element never overtakes an earlier one of equal power). */
  function Sort(s: seq<Entry>): (r: seq<Entry>)
    ensures |r| == |s|
  {
    if |s| == 0 then [] else Insert(s[|s| - 1], Sort(s[..|s| - 1]))
  }

  /** The sort yields a non-increasing sequence. */
  lemma {:induction false} SortIsSorted(s: seq<Entry>)
    ensures Sorted(Sort(s))
    decreases |s|
  {
    if |s| > 0 {
      var n := |s| - 1;
      SortIsSorted(s[..n]);
      InsertSorted(s[n], Sort(s[..n]));
    }
  }

  /** The sort is a permutation of its input. */
  lemma {:induction false} SortPermutes(s: seq<Entry>)
    ensures multiset(Sort(s)) == multiset(s)
    decreases |s|
  {
    if |s| > 0 {
      var n := |s| - 1;
      var p := s[..n];
      assert s == p + [s[n]];
      calc {
        multiset(Sort(s));
        multiset(Insert(s[n], Sort(p)));
        { InsertPermutes(s[n], Sort(p)); }
        multiset(Sort(p)) + multiset{s[n]};
        { SortPermutes(p); }
        multiset(p) + multiset{s[n]};
        multiset(p + [s[n]]);
      }
    }
  }

  /** `slice(0, k)`: the first `k` entries, or all of them when there are fewer. */
  function Take(s: seq<Entry>, k: nat): seq<Entry> {
    if |s| <= k then s else s[..k]
  }

  /** The leaderboard after one finalize: append, stable sort, keep ten. */
  function Record(board: seq<Entry>, e: Entry): seq<Entry> {
    Take(Sort(board + [e]), Capacity)
  }

  /** After one finalize the board is sorted, holds `min(|board| + 1, 10)`
      entries, and holds nothing that was not on the old board or new. */
  lemma RecordShape(board: seq<Entry>, e: Entry)
    ensures Sorted(Record(board, e))
    ensures |Record(board, e)| == Min(|board| + 1, Capacity)
    ensures multiset(Record(board, e)) <= multiset(board + [e])
  {
    var t := Sort(board + [e]);
    SortIsSorted(board + [e]);
    SortPermutes(board + [e]);
    TakeIsSubMultiset(t, Capacity);
  }

  /** The leaderboard after finalizing `es` in order. */
  function RecordAll(board: seq<Entry>, es: seq<Entry>): seq<Entry>
    decreases |es|
  {
    if |es| == 0 then board else RecordAll(Record(board, es[0]), es[1..])
  }

  // ---------------------------------------------------------------------
  // Sequence facts

  lemma PrefixOfLonger<T>(a: seq<T>, b: seq<T>, k: nat)
    requires k <= |a|
    ensures (a + b)[..k] == a[..k]
  {
  }

  lemma TakeIsSubMultiset(s: seq<Entry>, k: nat)
    ensures multiset(Take(s, k)) <= multiset(s)
  {
    if |s| > k {
      assert s == s[..k] + s[k..];
    }
  }

  lemma {:induction false} CountAtLeastAppend(a: seq<Entry>, b: seq<Entry>, p: int)
    ensures CountAtLeast(a + b, p) == CountAtLeast(a, p) + CountAtLeast(b, p)
    decreases |a|
  {
    if |a| == 0 {
      assert a + b == b;
    } else {
      assert (a + b)[1..] == a[1..] + b;
      CountAtLeastAppend(a[1..], b, p);
    }
  }

  lemma {:induction false} WithPowerAppend(a: seq<Entry>, b: seq<Entry>, p: int)
    ensures WithPower(a + b, p) == WithPower(a, p) + WithPower(b, p)
    decreases |a|
  {
    if |a| == 0 {
      assert a + b == b;
    } else {
      var head := if a[0].power == p then [a[0]] else [];
      assert (a + b)[0] == a[0];
      assert (a + b)[1..] == a[1..] + b;
      assert WithPower(a + b, p) == head + WithPower(a[1..] + b, p);
      WithPowerAppend(a[1..], b, p);
      assert head + (WithPower(a[1..], p) + WithPower(b, p)) == (head + WithPower(a[1..], p)) + WithPower(b, p);
    }
  }

  lemma {:induction false} WithPowerNone(s: seq<Entry>, p: int)
    requires AllBelow(s, p)
    ensures WithPower(s, p) == []
    decreases |s|
  {
    if |s| > 0 {
      WithPowerNone(s[1..], p);
    }
  }

  lemma {:induction false} CountAtLeastAll(s: seq<Entry>, p: int)
    requires AllAtLeast(s, p)
    ensures CountAtLeast(s, p) == |s|
    decreases |s|
  {
    if |s| > 0 {
      CountAtLeastAll(s[1..], p);
    }
  }

  lemma {:induction false} CountAtLeastNone(s: seq<Entry>, p: int)
    requires AllBelow(s, p)
    ensures CountAtLeast(s, p) == 0
    decreases |s|
  {
    if |s| > 0 {
      CountAtLeastNone(s[1..], p);
    }
  }

  /** An entry below `p` makes the count fall short of the length. */
  lemma {:induction false} CountAtLeastShort(s: seq<Entry>, p: int, i: nat)
    requires i < |s| && s[i].power < p
    ensures CountAtLeast(s, p) < |s|
    decreases |s|
  {
    if i > 0 {
      CountAtLeastShort(s[1..], p, i - 1);
    }
  }

  // ---------------------------------------------------------------------
  // Insert

  /** On a sorted board, Insert splices `e` in at the rank given by the
      number of entries with at least its power. */
  lemma {:induction false} InsertAtRank(e: Entry, s: seq<Entry>)
    requires Sorted(s)
    ensures CountAtLeast(s, e.power) <= |s|
    ensures Insert(e, s) == s[..CountAtLeast(s, e.power)] + [e] + s[CountAtLeast(s, e.power)..]
    decreases |s|
  {
    if |s| == 0 {
    } else if s[0].power < e.power {
      SortedBelowHead(s, e.power);
      CountAtLeastNone(s, e.power);
      assert s[..0] == [];
      assert s[0..] == s;
    } else {
      var t := s[1..];
      SortedTail(s);
      InsertAtRank(e, t);
      var i := CountAtLeast(t, e.power);
      assert CountAtLeast(s, e.power) == i + 1;
      calc {
        Insert(e, s);
        [s[0]] + Insert(e, t);
        [s[0]] + (t[..i] + [e] + t[i..]);
        { Reassociate(s[0], t[..i], e, t[i..]); }
        ([s[0]] + t[..i]) + [e] + t[i..];
        { ConsSlices(s, i); }
        s[..i + 1] + [e] + s[i + 1..];
      }
    }
  }

  /** Slicing a sequence after its head is slicing its tail. */
  lemma ConsSlices<T>(s: seq<T>, i: nat)
    requires i < |s|
    ensures s[..i + 1] == [s[0]] + s[1..][..i]
    ensures s[i + 1..] == s[1..][i..]
  {
  }

  lemma Reassociate<T>(x: T, a: seq<T>, y: T, b: seq<T>)
    ensures [x] + (a + [y] + b) == ([x] + a) + [y] + b
  {
  }

  /** A new entry that no board entry outranks goes to the end. */
  lemma {:induction false} InsertAfterAll(e: Entry, s: seq<Entry>)
    requires AllAtLeast(s, e.power)
    ensures Insert(e, s) == s + [e]
    decreases |s|
  {
    if |s| > 0 {
      InsertAfterAll(e, s[1..]);
      assert s == [s[0]] + s[1..];
    }
  }

  /** Insertion counts every entry once more. */
  lemma {:induction false} CountAtLeastInsert(e: Entry, s: seq<Entry>, p: int)
    ensures CountAtLeast(Insert(e, s), p) == CountAtLeast(s, p) + (if e.power >= p then 1 else 0)
    decreases |s|
  {
    if |s| == 0 {
    } else if s[0].power < e.power {
      assert ([e] + s)[1..] == s;
    } else {
      CountAtLeastInsert(e, s[1..], p);
      assert ([s[0]] + Insert(e, s[1..]))[1..] == Insert(e, s[1..]);
    }
  }

  /** Insertion into a sorted board keeps entries of equal power in arrival order. */
  lemma {:induction false} WithPowerInsert(e: Entry, s: seq<Entry>, p: int)
    requires Sorted(s)
    ensures WithPower(Insert(e, s), p) == WithPower(s, p) + (if e.power == p then [e] else [])
    decreases |s|
  {
    var mark := if e.power == p then [e] else [];
    if |s| == 0 {
      WithPowerCons(e, [], p);
      assert [e] + [] == [e];
    } else if s[0].power < e.power {
      assert Insert(e, s) == [e] + s;
      WithPowerCons(e, s, p);
      if e.power == p {
        SortedBelowHead(s, p);
        WithPowerNone(s, p);
      }
    } else {
      var head := if s[0].power == p then [s[0]] else [];
      var rest := Insert(e, s[1..]);
      SortedTail(s);
      assert Insert(e, s) == [s[0]] + rest;
      assert s == [s[0]] + s[1..];
      calc {
        WithPower(Insert(e, s), p);
        { WithPowerCons(s[0], rest, p); }
        head + WithPower(rest, p);
        { WithPowerInsert(e, s[1..], p); }
        head + (WithPower(s[1..], p) + mark);
        (head + WithPower(s[1..], p)) + mark;
        { WithPowerCons(s[0], s[1..], p); }
        WithPower(s, p) + mark;
      }
    }
  }

  /** A sorted board whose head is below `p` lies wholly below `p`. */
  lemma SortedBelowHead(s: seq<Entry>, p: int)
    requires Sorted(s) && |s| > 0 && s[0].power < p
    ensures AllBelow(s, p)
  {
  }

  lemma WithPowerCons(x: Entry, t: seq<Entry>, p: int)
    ensures WithPower([x] + t, p) == (if x.power == p then [x] else []) + WithPower(t, p)
  {
    assert ([x] + t)[0] == x;
    assert ([x] + t)[1..] == t;
  }

  /** Only the first `k` board entries decide the first `k` entries after an insertion. */
  lemma {:induction false} TakeInsert(e: Entry, s: seq<Entry>, k: nat)
    ensures Take(Insert(e, s), k) == Take(Insert(e, Take(s, k)), k)
    decreases k
  {
    if |s| <= k {
    } else if k == 0 {
    } else {
      var t := Take(s, k);
      assert t == s[..k];
      assert t[0] == s[0];
      assert t[1..] == Take(s[1..], k - 1);
      if s[0].power < e.power {
        assert Insert(e, t) == [e] + t;
        assert Take([e] + s, k) == [e] + Take(s, k - 1);
        assert Take([e] + t, k) == [e] + Take(t, k - 1);
      } else {
        TakeInsert(e, s[1..], k - 1);
        var a := Insert(e, s[1..]);
        var b := Insert(e, t[1..]);
        assert Insert(e, s) == [s[0]] + a;
        assert Insert(e, t) == [s[0]] + b;
        assert Take([s[0]] + a, k) == [s[0]] + Take(a, k - 1);
        assert Take([s[0]] + b, k) == [s[0]] + Take(b, k - 1);
      }
    }
  }

  // ---------------------------------------------------------------------
  // Sort

  /** Appending an entry and sorting is inserting it into the sorted rest. */
  lemma SortSnoc(s: seq<Entry>, e: Entry)
    ensures Sort(s + [e]) == Insert(e, Sort(s))
  {
    assert (s + [e])[..|s|] == s;
  }

  /** Sorting an already sorted board changes nothing. */
  lemma {:induction false} SortSorted(s: seq<Entry>)
    requires Sorted(s)
    ensures Sort(s) == s
    decreases |s|
  {
    if |s| > 0 {
      var n := |s| - 1;
      var p := s[..n];
      assert Sorted(p);
      assert AllAtLeast(p, s[n].power);
      calc {
        Sort(s);
        Insert(s[n], Sort(p));
        { SortSorted(p); }
        Insert(s[n], p);
        { InsertAfterAll(s[n], p); }
        p + [s[n]];
        s;
      }
    }
  }

  /** The sort is stable: for every power, the entries of that power come out
      in the order they went in. */
  lemma {:induction false} SortStable(s: seq<Entry>, p: int)
    ensures WithPower(Sort(s), p) == WithPower(s, p)
    decreases |s|
  {
    if |s| > 0 {
      var n := |s| - 1;
      var q := s[..n];
      var mark := if s[n].power == p then [s[n]] else [];
      assert s == q + [s[n]];
      calc {
        WithPower(Sort(s), p);
        WithPower(Insert(s[n], Sort(q)), p);
        { SortIsSorted(q); WithPowerInsert(s[n], Sort(q), p); }
        WithPower(Sort(q), p) + mark;
        { SortStable(q, p); }
        WithPower(q, p) + mark;
        { WithPowerCons(s[n], [], p); assert [s[n]] + [] == [s[n]]; }
        WithPower(q, p) + WithPower([s[n]], p);
        { WithPowerAppend(q, [s[n]], p); }
        WithPower(s, p);
      }
    }
  }

  /** Counting by power does not depend on the order. */
  lemma {:induction false} CountAtLeastSort(s: seq<Entry>, p: int)
    ensures CountAtLeast(Sort(s), p) == CountAtLeast(s, p)
    decreases |s|
  {
    if |s| > 0 {
      var n := |s| - 1;
      var q := s[..n];
      var one := if s[n].power >= p then 1 else 0;
      assert s == q + [s[n]];
      calc {
        CountAtLeast(Sort(s), p);
        CountAtLeast(Insert(s[n], Sort(q)), p);
        { CountAtLeastInsert(s[n], Sort(q), p); }
        CountAtLeast(Sort(q), p) + one;
        { CountAtLeastSort(q, p); }
        CountAtLeast(q, p) + one;
        { assert [s[n]][1..] == []; }
        CountAtLeast(q, p) + CountAtLeast([s[n]], p);
        { CountAtLeastAppend(q, [s[n]], p); }
        CountAtLeast(s, p);
      }
    }
  }

  // ---------------------------------------------------------------------
  // Record: the properties of one finalize

  /** The new entry lands at the rank equal to the number of earlier entries
      with at least its power; everything ranked before it is what the sorted
      old board had there. */
  lemma RecordRank(board: seq<Entry>, e: Entry)
    requires CountAtLeast(board, e.power) < Capacity
    ensures CountAtLeast(board, e.power) < |Record(board, e)|
    ensures Record(board, e)[CountAtLeast(board, e.power)] == e
    ensures Record(board, e)[..CountAtLeast(board, e.power)] == Sort(board)[..CountAtLeast(board, e.power)]
  {
    var t := Sort(board);
    SortIsSorted(board);
    CountAtLeastSort(board, e.power);
    InsertAtRank(e, t);
    var i := CountAtLeast(t, e.power);
    assert Record(board, e) == Take(t[..i] + [e] + t[i..], Capacity) by {
      SortSnoc(board, e);
    }
    TakeSplice(t, i, e, Capacity);
  }

  /** Cutting a splice after the spliced element keeps it and what precedes it. */
  lemma TakeSplice(t: seq<Entry>, i: nat, x: Entry, k: nat)
    requires i <= |t| && i < k
    ensures i < |Take(t[..i] + [x] + t[i..], k)|
    ensures Take(t[..i] + [x] + t[i..], k)[i] == x
    ensures Take(t[..i] + [x] + t[i..], k)[..i] == t[..i]
  {
    var u := t[..i] + [x] + t[i..];
    assert u[i] == x;
    assert u[..i] == t[..i];
  }

  /** When ten earlier entries have at least the new power, the new entry is
      dropped and the board is the ten best earlier entries. */
  lemma RecordEvicts(board: seq<Entry>, e: Entry)
    requires CountAtLeast(board, e.power) >= Capacity
    ensures Record(board, e) == Take(Sort(board), Capacity)
  {
    RecordIsInsert(board, e);
    InsertBelowTen(board, e);
  }

  /** Recording is inserting into the sorted old board and cutting at ten. */
  lemma RecordIsInsert(board: seq<Entry>, e: Entry)
    ensures Record(board, e) == Take(Insert(e, Sort(board)), Capacity)
  {
    SortSnoc(board, e);
  }

  lemma InsertBelowTen(board: seq<Entry>, e: Entry)
    requires CountAtLeast(board, e.power) >= Capacity
    ensures Insert(e, Sort(board))[..Capacity] == Sort(board)[..Capacity]
  {
    var t := Sort(board);
    SortIsSorted(board);
    CountAtLeastSort(board, e.power);
    InsertAtRank(e, t);
    SplicePrefix(t, CountAtLeast(t, e.power), e, Capacity);
  }

  /** Splicing an element in at or after position `k` leaves the first `k` alone. */
  lemma SplicePrefix<T>(t: seq<T>, i: nat, x: T, k: nat)
    requires k <= i <= |t|
    ensures (t[..i] + [x] + t[i..])[..k] == t[..k]
  {
    assert (t[..i] + [x] + t[i..])[..k] == t[..i][..k];
  }

  /** The new entry is on the board whenever the old board had room, or held
      at most ten entries one of which it beats. */
  lemma RecordKeepsNew(board: seq<Entry>, e: Entry)
    requires |board| < Capacity || (|board| <= Capacity && exists i :: 0 <= i < |board| && board[i].power < e.power)
    ensures e in Record(board, e)
  {
    if |board| >= Capacity {
      var i :| 0 <= i < |board| && board[i].power < e.power;
      CountAtLeastShort(board, e.power, i);
    }
    RecordRank(board, e);
  }

  /** On a sorted board the update is: splice the new entry in after all the
      entries with at least its power, then cut at ten. */
  lemma RecordSortedBoard(board: seq<Entry>, e: Entry)
    requires Sorted(board)
    ensures CountAtLeast(board, e.power) <= |board|
    ensures Record(board, e) == Take(board[..CountAtLeast(board, e.power)] + [e] + board[CountAtLeast(board, e.power)..], Capacity)
  {
    SortSnoc(board, e);
    SortSorted(board);
    InsertAtRank(e, board);
  }

  /** What is kept outranks what is dropped: every kept entry has at least the
      power of every entry of `board + [e]` the update leaves out. */
  lemma RecordKeepsHighest(board: seq<Entry>, e: Entry)
    ensures forall i, y :: (0 <= i < |Record(board, e)| && y in multiset(board + [e]) - multiset(Record(board, e))
                            ==> Record(board, e)[i].power >= y.power)
  {
    var t := Sort(board + [e]);
    var r := Record(board, e);
    RecordDropsTail(board, e);
    SortIsSorted(board + [e]);
    forall i, y | 0 <= i < |r| && y in multiset(board + [e]) - multiset(r)
      ensures r[i].power >= y.power
    {
      var j :| |r| <= j < |t| && t[j] == y;
      assert r[i] == t[i];
    }
  }

  /** What the update leaves out is exactly the tail of the sorted sequence. */
  lemma RecordDropsTail(board: seq<Entry>, e: Entry)
    ensures |Record(board, e)| <= |Sort(board + [e])|
    ensures Record(board, e) == Sort(board + [e])[..|Record(board, e)|]
    ensures forall y :: y in multiset(board + [e]) - multiset(Record(board, e))
                       ==> exists j :: |Record(board, e)| <= j < |Sort(board + [e])| && Sort(board + [e])[j] == y
  {
    var t := Sort(board + [e]);
    SortPermutes(board + [e]);
    DroppedAreInTail(t, board + [e], |Record(board, e)|);
  }

  /** For a permutation `t` of `s`, what a prefix of `t` leaves out of `s` sits in the rest of `t`. */
  lemma DroppedAreInTail<T>(t: seq<T>, s: seq<T>, k: nat)
    requires multiset(t) == multiset(s) && k <= |t|
    ensures forall y :: y in multiset(s) - multiset(t[..k]) ==> exists j :: k <= j < |t| && t[j] == y
  {
    assert t == t[..k] + t[k..];
    MultisetSplit(t[..k], t[k..]);
    forall y | y in multiset(s) - multiset(t[..k])
      ensures exists j :: k <= j < |t| && t[j] == y
    {
      assert y in t[k..];
      var j :| 0 <= j < |t[k..]| && t[k..][j] == y;
      assert t[k + j] == y;
    }
  }

  lemma MultisetSplit<T>(a: seq<T>, b: seq<T>)
    ensures multiset(a + b) - multiset(a) == multiset(b)
  {
  }

  /** Entries of equal power stay in arrival order on the board. */
  lemma RecordStable(board: seq<Entry>, e: Entry, p: int)
    ensures WithPower(Record(board, e), p) <= WithPower(board + [e], p)
  {
    var t := Sort(board + [e]);
    SortIsSorted(board + [e]);
    SortStable(board + [e], p);
    if |t| > Capacity {
      assert t == t[..Capacity] + t[Capacity..];
      WithPowerAppend(t[..Capacity], t[Capacity..], p);
    }
  }

  /** An entry that beats the whole sorted board goes on top. */
  lemma RecordOnTop(board: seq<Entry>, e: Entry)
    requires Sorted(board) && AllBelow(board, e.power)
    ensures Record(board, e) == Take([e] + board, Capacity)
  {
    RecordSortedBoard(board, e);
    CountAtLeastNone(board, e.power);
    assert board[..0] == [] && board[0..] == board;
  }

  /** An entry beaten by the whole sorted board goes to the bottom, if there is room. */
  lemma RecordAtBottom(board: seq<Entry>, e: Entry)
    requires Sorted(board) && AllAtLeast(board, e.power)
    ensures Record(board, e) == Take(board + [e], Capacity)
  {
    RecordSortedBoard(board, e);
    CountAtLeastAll(board, e.power);
    assert board[..|board|] == board && board[|board|..] == [];
  }

  /** Powers 5, 50, 1, 99 recorded into an empty board give 99, 50, 5, 1. */
  lemma BoardOfFour(a: Entry, b: Entry, c: Entry, d: Entry)
    requires a.power == 5 && b.power == 50 && c.power == 1 && d.power == 99
    ensures RecordAll([], [a, b, c, d]) == [d, b, a, c]
  {
    FirstTwoOfFour(a, b);
    LastTwoOfFour(a, b, c, d);
    RecordAllStep([], [a, b, c, d]);
    RecordAllStep([a], [b, c, d]);
    RecordAllStep([b, a], [c, d]);
    RecordAllStep([b, a, c], [d]);
    assert RecordAll([d, b, a, c], []) == [d, b, a, c];
  }

  lemma FirstTwoOfFour(a: Entry, b: Entry)
    requires a.power == 5 && b.power == 50
    ensures Record([], a) == [a] && Record([a], b) == [b, a]
  {
    RecordOnTop([], a);
    RecordOnTop([a], b);
  }

  lemma LastTwoOfFour(a: Entry, b: Entry, c: Entry, d: Entry)
    requires a.power == 5 && b.power == 50 && c.power == 1 && d.power == 99
    ensures Record([b, a], c) == [b, a, c] && Record([b, a, c], d) == [d, b, a, c]
  {
    assert Sorted([b, a]) && AllAtLeast([b, a], c.power);
    RecordAtBottom([b, a], c);
    assert [b, a] + [c] == [b, a, c];
    assert Sorted([b, a, c]) && AllBelow([b, a, c], d.power);
    RecordOnTop([b, a, c], d);
    assert [d] + [b, a, c] == [d, b, a, c];
  }

  /** Two entries recorded into an empty board: the higher one first, and
      on a tie the earlier one first. */
  lemma RecordOfTwo(a: Entry, b: Entry)
    ensures Record(Record([], a), b) == (if b.power > a.power then [b, a] else [a, b])
  {
    RecordOnTop([], a);
    assert Record([], a) == [a];
    if b.power > a.power {
      RecordOnTop([a], b);
    } else {
      RecordAtBottom([a], b);
    }
  }

  lemma RecordAllStep(board: seq<Entry>, es: seq<Entry>)
    requires |es| > 0
    ensures RecordAll(board, es) == RecordAll(Record(board, es[0]), es[1..])
  {
  }

  // ---------------------------------------------------------------------
  // Whole history

  /** Cutting to ten between insertions loses nothing: the board after a
      history of finalizes is the top ten of the stable sort of all of them. */
  lemma {:induction false} RecordAllIsTopTen(h: seq<Entry>, es: seq<Entry>)
    ensures RecordAll(Take(Sort(h), Capacity), es) == Take(Sort(h + es), Capacity)
    decreases |es|
  {
    if |es| == 0 {
      assert h + es == h;
    } else {
      var e := es[0];
      OneMoreOfTopTen(h, e);
      RecordAllIsTopTen(h + [e], es[1..]);
      MoveHead(h, es);
    }
  }

  /** Whatever the starting board, even an unsorted or overlong one loaded
      from storage, one or more recordings leave the top ten of the board and
      the new entries together, sorted. */
  lemma RecordAllAnyBoard(board: seq<Entry>, es: seq<Entry>)
    requires |es| > 0
    ensures RecordAll(board, es) == Take(Sort(board + es), Capacity)
    ensures Sorted(RecordAll(board, es))
    ensures |RecordAll(board, es)| == Min(|board| + |es|, Capacity)
  {
    RecordAllStep(board, es);
    RecordAllIsTopTen(board + [es[0]], es[1..]);
    MoveHead(board, es);
    SortIsSorted(board + es);
    TakeSorted(Sort(board + es), Capacity);
  }

  /** The first `k` entries of a sorted board are sorted. */
  lemma TakeSorted(s: seq<Entry>, k: nat)
    requires Sorted(s)
    ensures Sorted(Take(s, k))
  {
  }

  lemma MoveHead<T>(h: seq<T>, es: seq<T>)
    requires |es| > 0
    ensures h + [es[0]] + es[1..] == h + es
  {
  }

  /** One step of the history: recording into the top ten of `h` gives the top
      ten of `h + [e]`. */
  lemma OneMoreOfTopTen(h: seq<Entry>, e: Entry)
    ensures Record(Take(Sort(h), Capacity), e) == Take(Sort(h + [e]), Capacity)
  {
    var t := Sort(h);
    SortIsSorted(h);
    var b := Take(t, Capacity);
    assert Sorted(b);
    SortSnoc(b, e);
    SortSorted(b);
    assert Sort(b + [e]) == Insert(e, b);
    TakeInsert(e, t, Capacity);
    SortSnoc(h, e);
  }

  /** From an empty board, the board is the ten highest-power entries ever
      recorded, ties in arrival order. */
  lemma RecordAllFromEmpty(es: seq<Entry>)
    ensures RecordAll([], es) == Take(Sort(es), Capacity)
    ensures |RecordAll([], es)| == Min(|es|, Capacity)
  {
    RecordAllIsTopTen([], es);
    assert [] + es == es;
  }

  // ---------------------------------------------------------------------
  // Rising rewards

  /** Strictly increasing powers, oldest first. */
  predicate Ascending(s: seq<Entry>) {
    forall i, j :: 0 <= i < j < |s| ==> s[i].power < s[j].power
  }

  /** Newest first. */
  function Reverse(s: seq<Entry>): (r: seq<Entry>)
    ensures |r| == |s|
  {
    if |s| == 0 then [] else [s[|s| - 1]] + Reverse(s[..|s| - 1])
  }

  lemma {:induction false} ReverseAt(s: seq<Entry>, i: nat)
    requires i < |s|
    ensures Reverse(s)[i] == s[|s| - 1 - i]
    decreases |s|
  {
    if i > 0 {
      ReverseAt(s[..|s| - 1], i - 1);
    }
  }

  /** Each new entry of a rising history beats everything before it, so the
      stable sort is the history newest first. */
  lemma {:induction false} SortAscending(s: seq<Entry>)
    requires Ascending(s)
    ensures Sort(s) == Reverse(s)
    decreases |s|
  {
    if |s| > 0 {
      var n := |s| - 1;
      SortAscending(s[..n]);
      if n > 0 {
        ReverseAt(s[..n], 0);
        assert Reverse(s[..n])[0].power < s[n].power;
      }
    }
  }

  /** A rising history leaves its last ten entries on the board, newest first. */
  lemma AscendingHistory(es: seq<Entry>)
    requires Ascending(es)
    ensures |RecordAll([], es)| == Min(|es|, Capacity)
    ensures forall i :: 0 <= i < Min(|es|, Capacity) ==> RecordAll([], es)[i] == es[|es| - 1 - i]
  {
    RecordAllFromEmpty(es);
    SortAscending(es);
    forall i | 0 <= i < Min(|es|, Capacity)
      ensures RecordAll([], es)[i] == es[|es| - 1 - i]
    {
      ReverseAt(es, i);
    }
  }

  /** Rewards 1, 2, ..., 11 in that order leave powers 11 down to 2. */
  lemma ElevenRising(es: seq<Entry>)
    requires |es| == 11 && forall i :: 0 <= i < 11 ==> es[i].power == i + 1
    ensures |RecordAll([], es)| == 10
    ensures forall i :: 0 <= i < 10 ==> RecordAll([], es)[i].power == 11 - i
  {
    AscendingHistory(es);
  }
}
