/**
 * `fastestResult`: the outcomes in the order their keys were inserted, kept
 * when they have a non-empty text and a non-zero elapsed time, sorted by
 * elapsed time with a stable sort, and the first one taken.
 */
module Ranking {
  import opened Wrappers
  import opened Caller

  /** Kept by the ranking: a non-empty text and a non-zero elapsed time. An
      error record has no text, so it is never kept. */
  predicate Eligible(o: Outcome) {
    o.Success? && o.text != "" && o.elapsed != 0
  }

  /** `order` lists the keys of `results` in the order they were first
      inserted: every key once, and nothing else. */
  ghost predicate InsertionOrder(order: seq<string>, results: map<string, Outcome>) {
    && (forall i | 0 <= i < |order| :: order[i] in results)
    && (forall k | k in results :: k in order)
    && (forall i, j | 0 <= i < j < |order| :: order[i] != order[j])
  }

  /** The stored outcomes read out along `order`, which is how the values of
      the result object are listed. */
  function Values(order: seq<string>, results: map<string, Outcome>): (vals: seq<Outcome>)
    requires forall i | 0 <= i < |order| :: order[i] in results
    ensures |vals| == |order|
    ensures forall i | 0 <= i < |order| :: vals[i] == results[order[i]]
  {
    seq(|order|, i requires 0 <= i < |order| => results[order[i]])
  }

  /** A sequence without repeats has as many distinct elements as its length. */
  lemma {:induction false} DistinctCard(s: seq<string>)
    requires forall i, j | 0 <= i < j < |s| :: s[i] != s[j]
    ensures |set x | x in s| == |s|
  {
    if s != [] {
      DistinctCard(s[1..]);
      assert (set x | x in s) == {s[0]} + (set x | x in s[1..]);
      assert s[0] !in s[1..];
    }
  }

  /** Over an insertion order, the values list holds exactly one outcome per
      stored key: as many entries as keys, each key's outcome at its place. */
  lemma ValuesListsEveryKey(order: seq<string>, results: map<string, Outcome>)
    requires InsertionOrder(order, results)
    ensures |Values(order, results)| == |results|
    ensures forall k | k in results ::
      exists i | 0 <= i < |order| :: order[i] == k && Values(order, results)[i] == results[k]
  {
    DistinctCard(order);
    assert results.Keys == set x | x in order;
    forall k | k in results
      ensures exists i | 0 <= i < |order| :: order[i] == k && Values(order, results)[i] == results[k]
    {
      var i :| 0 <= i < |order| && order[i] == k;
    }
  }

  /** Keeps the eligible outcomes, in their order. */
  function Candidates(vals: seq<Outcome>): (c: seq<Outcome>)
    ensures forall o | o in c :: Eligible(o) && o in vals
  {
    if vals == [] then []
    else if Eligible(vals[0]) then [vals[0]] + Candidates(vals[1..])
    else Candidates(vals[1..])
  }

  /** The filter keeps exactly the eligible outcomes. */
  lemma {:induction false} CandidatesMembers(vals: seq<Outcome>)
    ensures forall o :: o in Candidates(vals) <==> o in vals && Eligible(o)
  {
    if vals != [] {
      CandidatesMembers(vals[1..]);
      assert forall o :: o in vals <==> o == vals[0] || o in vals[1..];
    }
  }

  /** The filter keeps input order: filtering two parts gives the two
      filtered parts one after the other. */
  lemma {:induction false} CandidatesAppend(a: seq<Outcome>, b: seq<Outcome>)
    ensures Candidates(a + b) == Candidates(a) + Candidates(b)
  {
    if a == [] {
      assert a + b == b;
    } else {
      assert (a + b)[1..] == a[1..] + b;
      CandidatesAppend(a[1..], b);
    }
  }

  predicate SortedByElapsed(s: seq<Outcome>) {
    forall i, j | 0 <= i < j < |s| :: s[i].elapsed <= s[j].elapsed
  }

  /** Places `o` before the first element that is not faster than it, so an
      element that came earlier stays ahead of its equals. */
  function Insert(o: Outcome, s: seq<Outcome>): (r: seq<Outcome>)
    ensures |r| == |s| + 1
    ensures r[0] == (if s == [] || o.elapsed <= s[0].elapsed then o else s[0])
  {
    if s == [] || o.elapsed <= s[0].elapsed then [o] + s
    else [s[0]] + Insert(o, s[1..])
  }

  /** Inserting keeps a sorted sequence sorted. */
  lemma {:induction false} InsertSorted(o: Outcome, s: seq<Outcome>)
    requires SortedByElapsed(s)
    ensures SortedByElapsed(Insert(o, s))
  {
    if s != [] && o.elapsed > s[0].elapsed {
      var t := Insert(o, s[1..]);
      InsertSorted(o, s[1..]);
      assert s[0].elapsed <= t[0].elapsed;
      var r := [s[0]] + t;
      forall i, j | 0 <= i < j < |r| ensures r[i].elapsed <= r[j].elapsed {
        if i > 0 {
          assert r[i] == t[i - 1] && r[j] == t[j - 1];
        } else {
          assert r[j] == t[j - 1] && t[0].elapsed <= t[j - 1].elapsed;
        }
      }
    }
  }

  /** Inserting adds exactly `o`. */
  lemma {:induction false} InsertPermutes(o: Outcome, s: seq<Outcome>)
    ensures multiset(Insert(o, s)) == multiset(s) + multiset{o}
  {
    if s != [] && o.elapsed > s[0].elapsed {
      InsertPermutes(o, s[1..]);
      assert s == [s[0]] + s[1..];
    }
  }

  /** Ascending by elapsed time with a stable sort, here as
      insertion from the back; any stable sort yields the same sequence. */
  function SortByElapsed(s: seq<Outcome>): (r: seq<Outcome>)
    ensures |r| == |s| && SortedByElapsed(r)
  {
    if s == [] then []
    else
      var t := SortByElapsed(s[1..]);
      InsertSorted(s[0], t);
      Insert(s[0], t)
  }

  /** The sort keeps every outcome and adds none. */
  lemma {:induction false} SortPermutes(s: seq<Outcome>)
    ensures multiset(SortByElapsed(s)) == multiset(s)
  {
    if s != [] {
      var t := SortByElapsed(s[1..]);
      SortPermutes(s[1..]);
      InsertPermutes(s[0], t);
      assert SortByElapsed(s) == Insert(s[0], t);
      MultisetCons(s);
    }
  }

  /** A non-empty sequence as a multiset: its head plus its tail. */
  lemma MultisetCons<T>(s: seq<T>)
    requires s != []
    ensures multiset(s) == multiset{s[0]} + multiset(s[1..])
  {
    assert s == [s[0]] + s[1..];
  }

  /** `[0]` of the sorted candidates, or nothing when there are none. */
  function Fastest(vals: seq<Outcome>): Option<Outcome> {
    var sorted := SortByElapsed(Candidates(vals));
    if sorted == [] then None else Some(sorted[0])
  }

  /** The ranking's meaning: `vals[k]` is eligible, no eligible outcome is
      faster, and every eligible outcome before it is strictly slower. */
  ghost predicate FastestAt(vals: seq<Outcome>, k: int) {
    && 0 <= k < |vals|
    && Eligible(vals[k])
    && (forall j | 0 <= j < |vals| && Eligible(vals[j]) :: vals[k].elapsed <= vals[j].elapsed)
    && (forall j | 0 <= j < k && Eligible(vals[j]) :: vals[k].elapsed < vals[j].elapsed)
  }

  /** Fastest in terms of the first outcome and the fastest of the rest:
      an eligible first outcome wins unless the rest has a strictly faster one. */
  lemma FastestStep(vals: seq<Outcome>)
    requires vals != []
    ensures Fastest(vals) ==
      var rest := Fastest(vals[1..]);
      if !Eligible(vals[0]) then rest
      else if rest.None? || vals[0].elapsed <= rest.value.elapsed then Some(vals[0])
      else rest
  {
    var tail := SortByElapsed(Candidates(vals[1..]));
    if Eligible(vals[0]) {
      assert Candidates(vals) == [vals[0]] + Candidates(vals[1..]);
      assert ([vals[0]] + Candidates(vals[1..]))[1..] == Candidates(vals[1..]);
      assert SortByElapsed(Candidates(vals)) == Insert(vals[0], tail);
    }
  }

  /** An eligible first outcome no slower than any eligible later one ranks first. */
  lemma FastestAtHead(vals: seq<Outcome>)
    requires vals != [] && Eligible(vals[0])
    requires forall j | 0 <= j < |vals| - 1 && Eligible(vals[1..][j]) :: vals[0].elapsed <= vals[1..][j].elapsed
    ensures FastestAt(vals, 0)
  {
    forall j | 0 < j < |vals| && Eligible(vals[j]) ensures vals[0].elapsed <= vals[j].elapsed {
      assert vals[j] == vals[1..][j - 1];
    }
  }

  /** The fastest of the rest stays fastest unless the first outcome is
      eligible and no slower. */
  lemma FastestAtShift(vals: seq<Outcome>, k: int)
    requires vals != [] && FastestAt(vals[1..], k)
    requires !(Eligible(vals[0]) && vals[0].elapsed <= vals[k + 1].elapsed)
    ensures FastestAt(vals, k + 1)
  {
    forall j | 0 < j < |vals| && Eligible(vals[j]) ensures vals[k + 1].elapsed <= vals[j].elapsed {
      assert vals[j] == vals[1..][j - 1];
    }
    forall j | 0 < j < k + 1 && Eligible(vals[j]) ensures vals[k + 1].elapsed < vals[j].elapsed {
      assert vals[j] == vals[1..][j - 1];
    }
  }

  /** There is no fastest result exactly when no outcome is eligible; when
      there is one, it is the earliest-inserted among the minimum-elapsed
      eligible outcomes. */
  lemma {:induction false} FastestSpec(vals: seq<Outcome>)
    ensures Fastest(vals).None? <==> forall j | 0 <= j < |vals| :: !Eligible(vals[j])
    ensures Fastest(vals).Some? ==> exists k :: FastestAt(vals, k) && Fastest(vals).value == vals[k]
  {
    if vals != [] {
      FastestSpec(vals[1..]);
      FastestStep(vals);
      var rest := Fastest(vals[1..]);
      if rest.Some? {
        var k :| FastestAt(vals[1..], k) && rest.value == vals[1..][k];
        if Eligible(vals[0]) && vals[0].elapsed <= rest.value.elapsed {
          FastestAtHead(vals);
        } else {
          FastestAtShift(vals, k);
        }
      } else {
        assert forall j | 1 <= j < |vals| :: vals[j] == vals[1..][j - 1];
        if Eligible(vals[0]) {
          FastestAtHead(vals);
        }
      }
    }
  }
}
