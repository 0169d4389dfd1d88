/** The leaderboard (`updateLeaderboard`): the new record is appended, the
    list is sorted by descending score with a stable sort, and only the first
    ten records are kept. */
module Leaderboard {

  /** One entry: `{score, date}`, the date as the text the browser produced. */
  datatype ScoreRecord = ScoreRecord(score: nat, date: string)

  /** `slice(0, 10)`: how many records are kept. */
  const Capacity := 10

  /** No record scores more than one before it. */
  ghost predicate SortedDesc(s: seq<ScoreRecord>)
  {
    forall i, j :: 0 <= i < j < |s| ==> s[i].score >= s[j].score
  }

  /** `x` placed into `t` after every leading record scoring at least as
      much: one step of a stable insertion sort. */
  function InsertDesc(t: seq<ScoreRecord>, x: ScoreRecord): (r: seq<ScoreRecord>)
    ensures |r| == |t| + 1
  {
    if t == [] then [x]
    else if t[0].score >= x.score then
      [t[0]] + InsertDesc(t[1..], x)
    else [x] + t
  }

  /** The order `sort((a, b) => b.score - a.score)` leaves: descending by
      score, records of equal score in their original order. */
  function SortDesc(s: seq<ScoreRecord>): (r: seq<ScoreRecord>)
    ensures |r| == |s|
  {
    if s == [] then []
    else
      InsertDesc(SortDesc(s[..|s| - 1]), s[|s| - 1])
  }

  /** `slice(0, n)`. */
  function Take(s: seq<ScoreRecord>, n: nat): (r: seq<ScoreRecord>)
    ensures |r| == if |s| <= n then |s| else n
    ensures forall i :: 0 <= i < |r| ==> r[i] == s[i]
  {
    if |s| <= n then s else s[..n]
  }

  /** The leaderboard after `updateLeaderboard(score)` on a day written `date`. */
  function Record(lb: seq<ScoreRecord>, score: nat, date: string): (r: seq<ScoreRecord>)
    ensures |r| == if |lb| + 1 <= Capacity then |lb| + 1 else Capacity
  {
    Take(SortDesc(lb + [ScoreRecord(score, date)]), Capacity)
  }

  /** The records of `s` scoring exactly `v`, in their order in `s`. */
  function WithScore(s: seq<ScoreRecord>, v: nat): seq<ScoreRecord>
  {
    if s == [] then []
    else (if s[0].score == v then [s[0]] else []) + WithScore(s[1..], v)
  }

  /** How many leading records of `t` score at least `v`. */
  function AtLeast(t: seq<ScoreRecord>, v: nat): (k: nat)
    ensures k <= |t|
  {
    if t == [] || t[0].score < v then 0 else 1 + AtLeast(t[1..], v)
  }

  // ---------------------------------------------------------------------
  // Sortedness

  lemma {:induction false} InsertDescPermutes(t: seq<ScoreRecord>, x: ScoreRecord)
    ensures multiset(InsertDesc(t, x)) == multiset(t) + multiset{x}
  {
    if t != [] && t[0].score >= x.score {
      InsertDescPermutes(t[1..], x);
      assert t == [t[0]] + t[1..];
    }
  }

  /** `SortDesc` only reorders: the same records, each as often. */
  lemma {:induction false} SortDescPermutes(s: seq<ScoreRecord>)
    ensures multiset(SortDesc(s)) == multiset(s)
  {
    if s != [] {
      var front, x := s[..|s| - 1], s[|s| - 1];
      SortDescPermutes(front);
      InsertDescPermutes(SortDesc(front), x);
      assert s == front + [x];
      assert multiset(s) == multiset(front) + multiset{x};
    }
  }

  /** Inserting a record no higher than a bound keeps every score under it. */
  lemma {:induction false} InsertDescBounded(t: seq<ScoreRecord>, x: ScoreRecord, m: nat)
    requires x.score <= m && forall i :: 0 <= i < |t| ==> t[i].score <= m
    ensures forall i :: 0 <= i < |t| + 1 ==> InsertDesc(t, x)[i].score <= m
  {
    if t != [] && t[0].score >= x.score {
      InsertDescBounded(t[1..], x, m);
    }
  }

  lemma {:induction false} InsertDescSorted(t: seq<ScoreRecord>, x: ScoreRecord)
    requires SortedDesc(t)
    ensures SortedDesc(InsertDesc(t, x))
  {
    if t != [] && t[0].score >= x.score {
      InsertDescSorted(t[1..], x);
      InsertDescBounded(t[1..], x, t[0].score);
    }
  }

  /** `SortDesc` leaves every record scoring at most the one before it. */
  lemma {:induction false} SortDescSorted(s: seq<ScoreRecord>)
    ensures SortedDesc(SortDesc(s))
  {
    if s != [] {
      SortDescSorted(s[..|s| - 1]);
      InsertDescSorted(SortDesc(s[..|s| - 1]), s[|s| - 1]);
    }
  }

  /** A list already in order is left as it is. */
  lemma {:induction false} InsertDescAtEnd(t: seq<ScoreRecord>, x: ScoreRecord)
    requires forall i :: 0 <= i < |t| ==> t[i].score >= x.score
    ensures InsertDesc(t, x) == t + [x]
  {
    if t != [] {
      InsertDescAtEnd(t[1..], x);
      assert t == [t[0]] + t[1..];
    }
  }

  lemma {:induction false} SortDescOfSorted(s: seq<ScoreRecord>)
    requires SortedDesc(s)
    ensures SortDesc(s) == s
  {
    if s != [] {
      var front := s[..|s| - 1];
      SortDescOfSorted(front);
      InsertDescAtEnd(front, s[|s| - 1]);
      assert front + [s[|s| - 1]] == s;
    }
  }

  // ---------------------------------------------------------------------
  // Stability

  /** `WithScore` keeps exactly the records of the given score. */
  lemma {:induction false} WithScoreMembers(s: seq<ScoreRecord>, v: nat, x: ScoreRecord)
    ensures x in WithScore(s, v) <==> x in s && x.score == v
  {
    if s != [] {
      WithScoreMembers(s[1..], v, x);
      assert s == [s[0]] + s[1..];
    }
  }

  lemma {:induction false} WithScoreConcat(a: seq<ScoreRecord>, b: seq<ScoreRecord>, v: nat)
    ensures WithScore(a + b, v) == WithScore(a, v) + WithScore(b, v)
  {
    if a == [] {
      assert a + b == b;
    } else {
      var h := if a[0].score == v then [a[0]] else [];
      calc {
        WithScore(a + b, v);
        == { assert a + b == [a[0]] + (a[1..] + b); WithScoreCons(a[0], a[1..] + b, v); }
        h + WithScore(a[1..] + b, v);
        == { WithScoreConcat(a[1..], b, v); }
        h + (WithScore(a[1..], v) + WithScore(b, v));
        == { WithScoreCons(a[0], a[1..], v); assert [a[0]] + a[1..] == a; }
        WithScore(a, v) + WithScore(b, v);
      }
    }
  }

  /** No record of `t` scores `v`: `WithScore` finds nothing. */
  lemma {:induction false} WithScoreNone(t: seq<ScoreRecord>, v: nat)
    requires forall i :: 0 <= i < |t| ==> t[i].score != v
    ensures WithScore(t, v) == []
  {
    if t != [] {
      WithScoreNone(t[1..], v);
    }
  }

  /** `WithScore` of a list with a given first record. */
  lemma WithScoreCons(x: ScoreRecord, t: seq<ScoreRecord>, v: nat)
    ensures WithScore([x] + t, v) == (if x.score == v then [x] else []) + WithScore(t, v)
  {
    assert ([x] + t)[0] == x && ([x] + t)[1..] == t;
  }

  /** Inserting `x` puts it after every record of its own score. */
  lemma {:induction false} InsertDescStable(t: seq<ScoreRecord>, x: ScoreRecord, v: nat)
    requires SortedDesc(t)
    ensures WithScore(InsertDesc(t, x), v) == WithScore(t, v) + (if x.score == v then [x] else [])
  {
    if t == [] {
      WithScoreCons(x, [], v);
    } else if t[0].score >= x.score {
      InsertDescStable(t[1..], x, v);
      InsertBehindHead(t, x, v);
    } else {
      InsertAtHead(t, x, v);
    }
  }

  /** The step of `InsertDescStable` where `x` goes behind the first record. */
  lemma InsertBehindHead(t: seq<ScoreRecord>, x: ScoreRecord, v: nat)
    requires t != [] && t[0].score >= x.score
    requires WithScore(InsertDesc(t[1..], x), v) == WithScore(t[1..], v) + (if x.score == v then [x] else [])
    ensures WithScore(InsertDesc(t, x), v) == WithScore(t, v) + (if x.score == v then [x] else [])
  {
    var rest := InsertDesc(t[1..], x);
    var h, e := if t[0].score == v then [t[0]] else [], if x.score == v then [x] else [];
    calc {
      WithScore(InsertDesc(t, x), v);
      == { assert InsertDesc(t, x) == [t[0]] + rest; }
      WithScore([t[0]] + rest, v);
      == { WithScoreCons(t[0], rest, v); }
      h + (WithScore(t[1..], v) + e);
      == { WithScoreCons(t[0], t[1..], v); assert [t[0]] + t[1..] == t; }
      WithScore(t, v) + e;
    }
  }

  /** The step of `InsertDescStable` where `x` goes in front of every record. */
  lemma InsertAtHead(t: seq<ScoreRecord>, x: ScoreRecord, v: nat)
    requires SortedDesc(t) && t != [] && t[0].score < x.score
    ensures WithScore(InsertDesc(t, x), v) == WithScore(t, v) + (if x.score == v then [x] else [])
  {
    WithScoreCons(x, t, v);
    if x.score == v {
      WithScoreNone(t, v);
    }
  }

  /** `SortDesc` keeps the records of each score in their original order. */
  lemma {:induction false} SortDescStable(s: seq<ScoreRecord>, v: nat)
    ensures WithScore(SortDesc(s), v) == WithScore(s, v)
  {
    if s != [] {
      var front, x := s[..|s| - 1], s[|s| - 1];
      SortDescStable(front, v);
      SortDescSorted(front);
      InsertDescStable(SortDesc(front), x, v);
      assert s == front + [x];
      WithScoreConcat(front, [x], v);
      WithScoreCons(x, [], v);
      assert [x] + [] == [x];
    }
  }

  /** Two lists in descending order that agree on the records of every score
      start with the same record. */
  lemma HeadsAgree(a: seq<ScoreRecord>, b: seq<ScoreRecord>)
    requires a != [] && b != []
    requires SortedDesc(a) && SortedDesc(b)
    requires forall v :: WithScore(a, v) == WithScore(b, v)
    ensures a[0] == b[0]
  {
    WithScoreMembers(b, b[0].score, b[0]);
    WithScoreMembers(a, b[0].score, b[0]);
    WithScoreMembers(a, a[0].score, a[0]);
    WithScoreMembers(b, a[0].score, a[0]);
    var i :| 0 <= i < |a| && a[i] == b[0];
    var j :| 0 <= j < |b| && b[j] == a[0];
    assert a[0].score == b[0].score;
    assert WithScore(a, a[0].score)[0] == a[0];
    assert WithScore(b, a[0].score)[0] == b[0];
  }

  lemma TailsAgree(a: seq<ScoreRecord>, b: seq<ScoreRecord>, v: nat)
    requires a != [] && b != [] && a[0] == b[0]
    requires WithScore(a, v) == WithScore(b, v)
    ensures WithScore(a[1..], v) == WithScore(b[1..], v)
  {
    var h := if a[0].score == v then [a[0]] else [];
    assert WithScore(a, v) == h + WithScore(a[1..], v);
    assert WithScore(b, v) == h + WithScore(b[1..], v);
    assert WithScore(a[1..], v) == WithScore(a, v)[|h|..];
    assert WithScore(b[1..], v) == WithScore(b, v)[|h|..];
  }

  /** Two lists in descending order that agree on the records of every score
      are the same list. */
  lemma {:induction false} StableOrderUnique(a: seq<ScoreRecord>, b: seq<ScoreRecord>)
    requires SortedDesc(a) && SortedDesc(b)
    requires forall v :: WithScore(a, v) == WithScore(b, v)
    ensures a == b
  {
    if a == [] || b == [] {
      if a != [] {
        WithScoreMembers(a, a[0].score, a[0]);
      } else if b != [] {
        WithScoreMembers(b, b[0].score, b[0]);
      }
    } else {
      HeadsAgree(a, b);
      forall v ensures WithScore(a[1..], v) == WithScore(b[1..], v) {
        TailsAgree(a, b, v);
      }
      StableOrderUnique(a[1..], b[1..]);
      assert a == [a[0]] + a[1..] && b == [b[0]] + b[1..];
    }
  }

  /** `SortDesc` is the stable descending sort: any list in descending order
      that keeps the records of each score of `s` in their order is it. */
  lemma SortDescIsStableSort(s: seq<ScoreRecord>, r: seq<ScoreRecord>)
    requires SortedDesc(r)
    requires forall v :: WithScore(r, v) == WithScore(s, v)
    ensures r == SortDesc(s)
  {
    SortDescSorted(s);
    forall v ensures WithScore(r, v) == WithScore(SortDesc(s), v) {
      SortDescStable(s, v);
    }
    StableOrderUnique(r, SortDesc(s));
  }

  // ---------------------------------------------------------------------
  // Where a new record lands

  /** In a list in descending order, `x` lands after exactly the records
      scoring at least as much. */
  lemma {:induction false} InsertDescAt(t: seq<ScoreRecord>, x: ScoreRecord)
    requires SortedDesc(t)
    ensures var k := AtLeast(t, x.score);
            InsertDesc(t, x) == t[..k] + [x] + t[k..] &&
            (forall i :: 0 <= i < k ==> t[i].score >= x.score) &&
            (forall i :: k <= i < |t| ==> t[i].score < x.score)
  {
    if t != [] && t[0].score >= x.score {
      InsertDescAt(t[1..], x);
      var k := AtLeast(t, x.score);
      assert t[..k] == [t[0]] + t[1..][..k - 1];
      assert t[k..] == t[1..][k - 1..];
    }
  }

  /** The new leaderboard is in descending order, and every record it keeps
      scores at least as much as every record it drops. */
  lemma RecordKeepsBest(lb: seq<ScoreRecord>, score: nat, date: string)
    ensures SortedDesc(Record(lb, score, date))
    ensures var all := SortDesc(lb + [ScoreRecord(score, date)]);
            var r := Record(lb, score, date);
            r == all[..|r|] &&
            forall i, j :: 0 <= i < |r| <= j < |all| ==> all[i].score >= all[j].score
  {
    var all := SortDesc(lb + [ScoreRecord(score, date)]);
    SortDescSorted(lb + [ScoreRecord(score, date)]);
    assert Record(lb, score, date) == all[..|Record(lb, score, date)|];
  }

  /** The new record goes right after the stored records scoring at least as
      much (older equal scores stay ahead of it); it is kept exactly when
      fewer than ten of those exist, and otherwise the top ten stay as they
      were. */
  lemma RecordPlacesNewEntry(lb: seq<ScoreRecord>, score: nat, date: string)
    ensures var t := SortDesc(lb);
            var x := ScoreRecord(score, date);
            var k := AtLeast(t, score);
            SortDesc(lb + [x]) == t[..k] + [x] + t[k..] &&
            (k < Capacity ==> Record(lb, score, date)[k] == x) &&
            (k >= Capacity ==> Record(lb, score, date) == Take(t, Capacity))
  {
    var x := ScoreRecord(score, date);
    var t := SortDesc(lb);
    assert (lb + [x])[..|lb + [x]| - 1] == lb;
    SortDescSorted(lb);
    InsertDescAt(t, x);
    var k := AtLeast(t, score);
    var all := t[..k] + [x] + t[k..];
    assert all[k] == x;
    if k >= Capacity {
      assert all[..Capacity] == t[..Capacity];
    }
  }

  // ---------------------------------------------------------------------
  // A session of records

  /** The leaderboard after `updateLeaderboard` has recorded each record of
      `xs` in turn, the first one first, starting from `lb`. For a stored
      leaderboard of at most ten records it holds as many records as were
      stored and recorded, but never more than ten. */
  function RecordAll(lb: seq<ScoreRecord>, xs: seq<ScoreRecord>): (r: seq<ScoreRecord>)
    ensures |lb| <= Capacity ==>
              |r| == if |lb| + |xs| <= Capacity then |lb| + |xs| else Capacity
  {
    if xs == [] then lb
    else
      var x := xs[|xs| - 1];
      Record(RecordAll(lb, xs[..|xs| - 1]), x.score, x.date)
  }

  lemma TakeCons(a: ScoreRecord, s: seq<ScoreRecord>, n: nat)
    ensures Take([a] + s, n + 1) == [a] + Take(s, n)
  {
    if |s| > n {
      assert ([a] + s)[..n + 1] == [a] + s[..n];
    }
  }

  /** Cutting the list to `n` records before an insertion and cutting it
      again after gives the same records as cutting only after. */
  lemma {:induction false} TakeInsertTake(t: seq<ScoreRecord>, x: ScoreRecord, n: nat)
    ensures Take(InsertDesc(Take(t, n), x), n) == Take(InsertDesc(t, x), n)
  {
    if n == 0 || t == [] {
    } else if t[0].score >= x.score {
      assert t == [t[0]] + t[1..];
      TakeCons(t[0], t[1..], n - 1);
      var u := Take(t[1..], n - 1);
      assert ([t[0]] + u)[0] == t[0] && ([t[0]] + u)[1..] == u;
      TakeInsertTake(t[1..], x, n - 1);
      TakeCons(t[0], InsertDesc(u, x), n - 1);
      TakeCons(t[0], InsertDesc(t[1..], x), n - 1);
    } else {
      var u := Take(t, n);
      assert u[0] == t[0];
      TakeCons(x, u, n - 1);
      TakeCons(x, t, n - 1);
      assert Take(u, n - 1) == Take(t, n - 1);
    }
  }

  /** Recording a session one score at a time gives the same leaderboard as
      sorting the stored records and all the new ones together, once, and
      keeping the first ten. */
  lemma {:induction false} RecordAllSortsOnce(lb: seq<ScoreRecord>, xs: seq<ScoreRecord>)
    requires xs != []
    ensures RecordAll(lb, xs) == Take(SortDesc(lb + xs), Capacity)
  {
    var front, x := xs[..|xs| - 1], xs[|xs| - 1];
    assert (lb + xs)[..|lb + xs| - 1] == lb + front;
    assert ScoreRecord(x.score, x.date) == x;
    if front == [] {
      assert lb + [x] == lb + xs;
    } else {
      RecordAllSortsOnce(lb, front);
      var t := SortDesc(lb + front);
      var kept := Take(t, Capacity);
      SortDescSorted(lb + front);
      assert SortedDesc(kept);
      SortDescOfSorted(kept);
      assert (kept + [x])[..|kept + [x]| - 1] == kept;
      TakeInsertTake(t, x, Capacity);
    }
  }

  /** The first `n` records of a list in descending order are in order, and
      each record after them scores at most as much as each of them. */
  lemma PrefixKeepsBest(all: seq<ScoreRecord>, n: nat)
    requires SortedDesc(all) && n <= |all|
    ensures SortedDesc(all[..n])
    ensures multiset(all[..n]) <= multiset(all)
    ensures forall y, z :: y in multiset(all) - multiset(all[..n]) && z in all[..n] ==>
              y.score <= z.score
  {
    var r, rest := all[..n], all[n..];
    assert multiset(all) == multiset(r) + multiset(rest) by {
      assert all == r + rest;
    }
    forall y, z | y in multiset(all) - multiset(r) && z in r
      ensures y.score <= z.score
    {
      assert y in rest;
      var j :| 0 <= j < |rest| && rest[j] == y;
      var i :| 0 <= i < n && r[i] == z;
      assert all[i] == z && all[n + j] == y;
    }
  }

  /** Over a whole session the leaderboard is in descending order, holds only
      records that were stored or recorded, and each record it no longer
      holds scores at most as much as every record it holds. */
  lemma RecordAllKeepsBest(lb: seq<ScoreRecord>, xs: seq<ScoreRecord>)
    requires |lb| <= Capacity
    ensures xs != [] || SortedDesc(lb) ==> SortedDesc(RecordAll(lb, xs))
    ensures multiset(RecordAll(lb, xs)) <= multiset(lb) + multiset(xs)
    ensures var r := RecordAll(lb, xs);
            forall y, z :: y in multiset(lb) + multiset(xs) - multiset(r) && z in r ==>
              y.score <= z.score
  {
    if xs != [] {
      var all := SortDesc(lb + xs);
      var r := RecordAll(lb, xs);
      RecordAllSortsOnce(lb, xs);
      SortDescSorted(lb + xs);
      SortDescPermutes(lb + xs);
      assert r == all[..|r|];
      PrefixKeepsBest(all, |r|);
    }
  }

  /** Two records of equal score: the older one stays first. */
  lemma TieKeepsOlderFirst()
    ensures Record([ScoreRecord(8, "1/1/2024")], 8, "2/1/2024") ==
            [ScoreRecord(8, "1/1/2024"), ScoreRecord(8, "2/1/2024")]
  {
    var a, b := ScoreRecord(8, "1/1/2024"), ScoreRecord(8, "2/1/2024");
    assert [a] + [b] == [a, b];
    assert [a, b][..1] == [a];
    assert [a][..0] == [];
    assert SortDesc([a]) == [a];
  }
}
