/**
 * The score ledger kept in scores.csv: at most five records ranked by WPM,
 * best first. TypingFrame.save_score appends a record, sorts the whole list
 * by WPM in descending order with Python's stable `sorted` and keeps the
 * first five; TypingApp.get_high_score reports the largest WPM, or 0.
 */
module ScoreLedger {

  /** One row of scores.csv (the two-decimal rounding of the file is abstracted away). */
  datatype ScoreRecord = ScoreRecord(time: real, wpm: real, accuracy: real)

  /**
   * scores.csv as the trial engine and the main menu share it: its rows in
   * file order (a missing file is the empty list).
   */
  class ScoreFile {
    var rows: seq<ScoreRecord>

    constructor (rows: seq<ScoreRecord>)
      ensures this.rows == rows
    {
      this.rows := rows;
    }
  }

  /** The number of rows save_score keeps. */
  const Capacity: nat := 5

  function Min(a: int, b: int): int { if a < b then a else b }
  function Max(a: real, b: real): real { if a < b then b else a }

  /** Best first: WPM never increases along the sequence. */
  predicate SortedDesc(s: seq<ScoreRecord>) {
    forall i, j :: 0 <= i < j < |s| ==> s[i].wpm >= s[j].wpm
  }

  /** What save_score always leaves behind: sorted and within capacity. */
  predicate IsLedger(s: seq<ScoreRecord>) {
    SortedDesc(s) && |s| <= Capacity
  }

  /** The records of `s` whose WPM is exactly `w`, in their order in `s`. */
  function WithWpm(s: seq<ScoreRecord>, w: real): (r: seq<ScoreRecord>)
    ensures |r| <= |s|
  {
    if s == [] then [] else (if s[0].wpm == w then [s[0]] else []) + WithWpm(s[1..], w)
  }

  /** How many records of `s` have a WPM of at least `w`. */
  function CountAtLeast(s: seq<ScoreRecord>, w: real): (n: nat)
    ensures n <= |s|
  {
    if s == [] then 0 else (if s[0].wpm >= w then 1 else 0) + CountAtLeast(s[1..], w)
  }

  /**
   * Places `x` after every record of `t` whose WPM is at least as high: a
   * record never overtakes an earlier one with the same WPM.
   */
  function InsertDesc(t: seq<ScoreRecord>, x: ScoreRecord): (r: seq<ScoreRecord>)
    ensures |r| == |t| + 1
  {
    if t == [] then [x]
    else if t[0].wpm >= x.wpm then [t[0]] + InsertDesc(t[1..], x)
    else [x] + t
  }

  /**
   * `sorted(s, key=WPM, reverse=True)`, built by inserting the records in
   * their order; the properties that make it that sort are proved below:
   * a permutation (SortDescPermutation), best first (SortDescSorted) and
   * stable (SortDescStable).
   */
  function SortDesc(s: seq<ScoreRecord>): (r: seq<ScoreRecord>)
    ensures |r| == |s|
  {
    if s == [] then [] else InsertDesc(SortDesc(s[..|s| - 1]), s[|s| - 1])
  }

  /** save_score on the rows read from the file: append, sort, keep the first five. */
  function Insert(rows: seq<ScoreRecord>, entry: ScoreRecord): (r: seq<ScoreRecord>)
    ensures |r| == Min(|rows| + 1, Capacity)
    ensures IsLedger(r)
    ensures multiset(r) <= multiset(rows) + multiset{entry}
  {
    var all := SortDesc(rows + [entry]);
    SortDescSorted(rows + [entry]);
    SortDescPermutation(rows + [entry]);
    var r := all[..Min(|all|, Capacity)];
    assert all == r + all[|r|..];
    assert multiset(all) == multiset(r) + multiset(all[|r|..]);
    r
  }

  /** `max(wpms) if wpms else 0` over the rows of scores.csv. */
  function HighScore(rows: seq<ScoreRecord>): (h: real)
    ensures rows == [] ==> h == 0.0
    ensures rows != [] ==> (forall i :: 0 <= i < |rows| ==> rows[i].wpm <= h)
    ensures rows != [] ==> exists i :: 0 <= i < |rows| && rows[i].wpm == h
  {
    if rows == [] then 0.0
    else if |rows| == 1 then rows[0].wpm
    else
      var rest := HighScore(rows[1..]);
      assert forall i :: 1 <= i < |rows| ==> rows[i] == rows[1..][i - 1];
      Max(rows[0].wpm, rest)
  }

  // ---------------------------------------------------------------------
  // Counting and filtering distribute over concatenation.

  lemma {:induction false} WithWpmAppend(a: seq<ScoreRecord>, b: seq<ScoreRecord>, w: real)
    ensures WithWpm(a + b, w) == WithWpm(a, w) + WithWpm(b, w)
  {
    if a != [] {
      assert (a + b)[1..] == a[1..] + b;
      WithWpmAppend(a[1..], b, w);
    } else {
      assert a + b == b;
    }
  }

  lemma {:induction false} CountAtLeastAppend(a: seq<ScoreRecord>, b: seq<ScoreRecord>, w: real)
    ensures CountAtLeast(a + b, w) == CountAtLeast(a, w) + CountAtLeast(b, w)
  {
    if a != [] {
      assert (a + b)[1..] == a[1..] + b;
      CountAtLeastAppend(a[1..], b, w);
    } else {
      assert a + b == b;
    }
  }

  lemma {:induction false} CountAtLeastAll(s: seq<ScoreRecord>, w: real)
    requires forall i :: 0 <= i < |s| ==> s[i].wpm >= w
    ensures CountAtLeast(s, w) == |s|
  {
    if s != [] {
      CountAtLeastAll(s[1..], w);
    }
  }

  lemma {:induction false} CountAtLeastNone(s: seq<ScoreRecord>, w: real)
    requires forall i :: 0 <= i < |s| ==> s[i].wpm < w
    ensures CountAtLeast(s, w) == 0 && WithWpm(s, w) == []
  {
    if s != [] {
      CountAtLeastNone(s[1..], w);
    }
  }

  // ---------------------------------------------------------------------
  // The descending sort.

  lemma {:induction false} InsertDescPermutation(t: seq<ScoreRecord>, x: ScoreRecord)
    ensures multiset(InsertDesc(t, x)) == multiset(t) + multiset{x}
  {
    if t != [] && t[0].wpm >= x.wpm {
      var head, tail := t[0], t[1..];
      InsertDescPermutation(tail, x);
      assert InsertDesc(t, x) == [head] + InsertDesc(tail, x);
      assert t == [head] + tail;
      assert multiset([head] + tail) == multiset{head} + multiset(tail);
      assert multiset([head] + InsertDesc(tail, x)) == multiset{head} + multiset(InsertDesc(tail, x));
    }
  }


  /** The sort's output is a permutation of its input. */
  lemma {:induction false} SortDescPermutation(s: seq<ScoreRecord>)
    ensures multiset(SortDesc(s)) == multiset(s)
  {
    if s != [] {
      SortDescPermutation(s[..|s| - 1]);
      InsertDescPermutation(SortDesc(s[..|s| - 1]), s[|s| - 1]);
      assert s == s[..|s| - 1] + [s[|s| - 1]];
    }
  }

  lemma SortedDescTail(t: seq<ScoreRecord>)
    requires SortedDesc(t) && t != []
    ensures SortedDesc(t[1..])
    ensures forall i :: 0 <= i < |t| ==> t[i].wpm <= t[0].wpm
  {
  }

  /** Inserting keeps every record at or below a WPM bound that all of them meet. */
  lemma {:induction false} InsertDescBounded(t: seq<ScoreRecord>, x: ScoreRecord, b: real)
    requires forall i :: 0 <= i < |t| ==> t[i].wpm <= b
    requires x.wpm <= b
    ensures forall i :: 0 <= i < |InsertDesc(t, x)| ==> InsertDesc(t, x)[i].wpm <= b
  {
    if t != [] && t[0].wpm >= x.wpm {
      InsertDescBounded(t[1..], x, b);
      var rest := InsertDesc(t[1..], x);
      assert InsertDesc(t, x) == [t[0]] + rest;
      forall i | 0 <= i < |rest| + 1 ensures ([t[0]] + rest)[i].wpm <= b {
        if i > 0 { assert ([t[0]] + rest)[i] == rest[i - 1]; }
      }
    }
  }

  lemma {:induction false} InsertDescSorted(t: seq<ScoreRecord>, x: ScoreRecord)
    requires SortedDesc(t)
    ensures SortedDesc(InsertDesc(t, x))
  {
    if t != [] && t[0].wpm >= x.wpm {
      var rest := InsertDesc(t[1..], x);
      SortedDescTail(t);
      InsertDescSorted(t[1..], x);
      InsertDescBounded(t[1..], x, t[0].wpm);
      var r := [t[0]] + rest;
      assert InsertDesc(t, x) == r;
      forall i, j | 0 <= i < j < |r| ensures r[i].wpm >= r[j].wpm {
        assert r[j] == rest[j - 1];
        if i > 0 { assert r[i] == rest[i - 1]; }
      }
    } else if t != [] {
      var r := [x] + t;
      forall i, j | 0 <= i < j < |r| ensures r[i].wpm >= r[j].wpm {
        assert r[j] == t[j - 1];
        if i > 0 { assert r[i] == t[i - 1]; }
      }
    }
  }

  /** The sort's output is best first. */
  lemma {:induction false} SortDescSorted(s: seq<ScoreRecord>)
    ensures SortedDesc(SortDesc(s))
  {
    if s != [] {
      SortDescSorted(s[..|s| - 1]);
      InsertDescSorted(SortDesc(s[..|s| - 1]), s[|s| - 1]);
    }
  }

  lemma {:induction false} InsertDescStable(t: seq<ScoreRecord>, x: ScoreRecord, w: real)
    requires SortedDesc(t)
    ensures WithWpm(InsertDesc(t, x), w) == WithWpm(t, w) + WithWpm([x], w)
  {
    if t == [] {
    } else if t[0].wpm >= x.wpm {
      SortedDescTail(t);
      InsertDescStable(t[1..], x, w);
      calc {
        WithWpm(InsertDesc(t, x), w);
        { WithWpmAppend([t[0]], InsertDesc(t[1..], x), w); }
        WithWpm([t[0]], w) + WithWpm(InsertDesc(t[1..], x), w);
        WithWpm([t[0]], w) + WithWpm(t[1..], w) + WithWpm([x], w);
        { WithWpmAppend([t[0]], t[1..], w); assert [t[0]] + t[1..] == t; }
        WithWpm(t, w) + WithWpm([x], w);
      }
    } else {
      SortedDescTail(t);
      assert InsertDesc(t, x) == [x] + t;
      WithWpmAppend([x], t, w);
      if x.wpm == w {
        CountAtLeastNone(t, w);
      }
    }
  }

  /**
   * The sort is stable: for every WPM value, the records with that value
   * appear in the output in the order they had in the input.
   */
  lemma {:induction false} SortDescStable(s: seq<ScoreRecord>, w: real)
    ensures WithWpm(SortDesc(s), w) == WithWpm(s, w)
  {
    if s != [] {
      var init, last := s[..|s| - 1], s[|s| - 1];
      SortDescStable(init, w);
      SortDescSorted(init);
      InsertDescStable(SortDesc(init), last, w);
      assert s == init + [last];
      WithWpmAppend(init, [last], w);
    }
  }

  lemma SortedDescSplitLast(s: seq<ScoreRecord>, init: seq<ScoreRecord>)
    requires SortedDesc(s) && s != [] && init == s[..|s| - 1]
    ensures SortedDesc(init)
    ensures forall i :: 0 <= i < |init| ==> init[i].wpm >= s[|s| - 1].wpm
  {
  }

  /** A record no better than any of `t` goes to the end. */
  lemma {:induction false} InsertDescAtEnd(t: seq<ScoreRecord>, x: ScoreRecord)
    requires forall i :: 0 <= i < |t| ==> t[i].wpm >= x.wpm
    ensures InsertDesc(t, x) == t + [x]
  {
    if t != [] {
      InsertDescAtEnd(t[1..], x);
      assert t == [t[0]] + t[1..];
    }
  }

  /** Sorting an already sorted list changes nothing. */
  lemma {:induction false} SortDescOfSorted(s: seq<ScoreRecord>)
    requires SortedDesc(s)
    ensures SortDesc(s) == s
  {
    if s != [] {
      var init, last := s[..|s| - 1], s[|s| - 1];
      SortedDescSplitLast(s, init);
      SortDescOfSorted(init);
      InsertDescAtEnd(init, last);
      assert s == init + [last];
    }
  }

  /**
   * In a sorted list the new record lands right after the `k` records whose
   * WPM is at least its own.
   */
  lemma {:induction false} InsertDescSplit(t: seq<ScoreRecord>, x: ScoreRecord)
    requires SortedDesc(t)
    ensures var k := CountAtLeast(t, x.wpm);
            InsertDesc(t, x) == t[..k] + [x] + t[k..]
  {
    if t != [] {
      SortedDescTail(t);
      if t[0].wpm >= x.wpm {
        InsertDescSplit(t[1..], x);
        var k := CountAtLeast(t[1..], x.wpm);
        assert CountAtLeast(t, x.wpm) == k + 1;
        assert InsertDesc(t, x) == [t[0]] + (t[1..][..k] + [x] + t[1..][k..]);
        assert t[..k + 1] == [t[0]] + t[1..][..k];
        assert t[k + 1..] == t[1..][k..];
      } else {
        CountAtLeastNone(t, x.wpm);
        assert InsertDesc(t, x) == [x] + t;
        assert t[..0] == [] && t[0..] == t;
      }
    }
  }

  lemma {:induction false} CountAtLeastInsertDesc(t: seq<ScoreRecord>, x: ScoreRecord, w: real)
    ensures CountAtLeast(InsertDesc(t, x), w) == CountAtLeast(t, w) + CountAtLeast([x], w)
  {
    if t != [] && t[0].wpm >= x.wpm {
      CountAtLeastInsertDesc(t[1..], x, w);
    } else if t != [] {
      assert ([x] + t)[1..] == t;
    }
  }

  /** Sorting keeps the number of records at or above any WPM. */
  lemma {:induction false} CountAtLeastSortDesc(s: seq<ScoreRecord>, w: real)
    ensures CountAtLeast(SortDesc(s), w) == CountAtLeast(s, w)
  {
    if s != [] {
      var init, last := s[..|s| - 1], s[|s| - 1];
      CountAtLeastSortDesc(init, w);
      CountAtLeastInsertDesc(SortDesc(init), last, w);
      assert s == init + [last];
      CountAtLeastAppend(init, [last], w);
    }
  }

  /** Appending then sorting is inserting the new record into the sorted old rows. */
  lemma SortDescAppend(rows: seq<ScoreRecord>, entry: ScoreRecord)
    ensures SortDesc(rows + [entry]) == InsertDesc(SortDesc(rows), entry)
  {
    assert (rows + [entry])[..|rows|] == rows;
  }

  // ---------------------------------------------------------------------
  // save_score.

  /**
   * The saved list is the stable sort of the old rows plus the new record,
   * cut to five: for every WPM value, the kept records with that value are
   * a prefix of the old ones with that value followed by the new record.
   */
  lemma InsertIsStablePrefix(rows: seq<ScoreRecord>, entry: ScoreRecord, w: real)
    ensures var all := SortDesc(rows + [entry]);
            && Insert(rows, entry) == all[..|Insert(rows, entry)|]
            && WithWpm(all, w) == WithWpm(rows, w) + (if entry.wpm == w then [entry] else [])
  {
    SortDescStable(rows + [entry], w);
    WithWpmAppend(rows, [entry], w);
  }

  /**
   * The new record's rank is the number `k` of old records with at least
   * its WPM (ties stay ahead of it). It is kept, at index `k`, exactly when
   * `k` is below five, behind the unchanged top `k`; otherwise the ledger
   * is the old top five.
   */
  lemma InsertRank(rows: seq<ScoreRecord>, entry: ScoreRecord)
    ensures var k := CountAtLeast(rows, entry.wpm);
            var r := Insert(rows, entry);
            && (k < Capacity ==> k < |r| && r[k] == entry && r[..k] == SortDesc(rows)[..k])
            && (k >= Capacity ==> r == SortDesc(rows)[..Capacity])
  {
    var t := SortDesc(rows);
    var k := CountAtLeast(rows, entry.wpm);
    AppendedSortSplit(rows, entry);
    var all := t[..k] + [entry] + t[k..];
    InsertIsPrefix(rows, entry, all);
    var r := Insert(rows, entry);
    if k < Capacity {
      assert r[k] == all[k] == entry;
      assert r[..k] == all[..k] == t[..k];
    } else {
      assert r == all[..Capacity] == t[..Capacity];
    }
  }

  /** The sort of the old rows plus the new record, split at the new record's rank. */
  lemma AppendedSortSplit(rows: seq<ScoreRecord>, entry: ScoreRecord)
    ensures var t := SortDesc(rows);
            var k := CountAtLeast(rows, entry.wpm);
            k <= |t| && SortDesc(rows + [entry]) == t[..k] + [entry] + t[k..]
  {
    SortDescAppend(rows, entry);
    SortDescSorted(rows);
    InsertDescSplit(SortDesc(rows), entry);
    CountAtLeastSortDesc(rows, entry.wpm);
  }

  lemma InsertIsPrefix(rows: seq<ScoreRecord>, entry: ScoreRecord, all: seq<ScoreRecord>)
    requires all == SortDesc(rows + [entry])
    ensures Insert(rows, entry) == all[..Min(|rows| + 1, Capacity)]
  {
  }

  /**
   * On a ledger (sorted, at most five rows) save_score inserts the record
   * at its rank and drops the sixth row, and the result is again a ledger.
   */
  lemma InsertIntoLedger(rows: seq<ScoreRecord>, entry: ScoreRecord)
    requires IsLedger(rows)
    ensures var k := CountAtLeast(rows, entry.wpm);
            Insert(rows, entry) == (rows[..k] + [entry] + rows[k..])[..Min(|rows| + 1, Capacity)]
  {
    SortDescAppend(rows, entry);
    SortDescOfSorted(rows);
    InsertDescSplit(rows, entry);
  }

  /** A full ledger is left as it is by a record no better than its last row. */
  lemma InsertBelowFullLedger(rows: seq<ScoreRecord>, entry: ScoreRecord)
    requires IsLedger(rows) && |rows| == Capacity
    requires entry.wpm <= rows[Capacity - 1].wpm
    ensures Insert(rows, entry) == rows
  {
    InsertIntoLedger(rows, entry);
    CountAtLeastAll(rows, entry.wpm);
  }

  /** On a ledger the high score is the first row. */
  lemma HighScoreOfLedger(rows: seq<ScoreRecord>)
    requires SortedDesc(rows) && rows != []
    ensures HighScore(rows) == rows[0].wpm
  {
  }

  /** The high score depends only on which records there are, not on their order. */
  lemma HighScoreOfPermutation(a: seq<ScoreRecord>, b: seq<ScoreRecord>)
    requires multiset(a) == multiset(b)
    ensures HighScore(a) == HighScore(b)
  {
    if a != [] {
      HighScoreAtMostOther(a, b);
      HighScoreAtMostOther(b, a);
    } else {
      assert |b| == |multiset(b)| == 0;
    }
  }

  lemma HighScoreAtMostOther(a: seq<ScoreRecord>, b: seq<ScoreRecord>)
    requires multiset(a) == multiset(b) && a != []
    ensures HighScore(a) <= HighScore(b)
  {
    var i :| 0 <= i < |a| && a[i].wpm == HighScore(a);
    assert a[i] in multiset(b);
    var j :| 0 <= j < |b| && b[j] == a[i];
  }

  /** Appending one record: the high score becomes the larger of the two. */
  lemma HighScoreAppend(rows: seq<ScoreRecord>, entry: ScoreRecord)
    ensures HighScore(rows + [entry]) == if rows == [] then entry.wpm else Max(HighScore(rows), entry.wpm)
  {
    var all := rows + [entry];
    var h := HighScore(all);
    assert all[|rows|] == entry;
    if rows != [] {
      var i :| 0 <= i < |rows| && rows[i].wpm == HighScore(rows);
      assert all[i] == rows[i];
      var k :| 0 <= k < |all| && all[k].wpm == h;
      if k < |rows| { assert all[k] == rows[k]; }
    } else {
      assert all == [entry];
    }
  }

  /** After save_score the high score is the larger of the old high score and the new WPM. */
  lemma HighScoreAfterInsert(rows: seq<ScoreRecord>, entry: ScoreRecord)
    ensures HighScore(Insert(rows, entry)) == if rows == [] then entry.wpm else Max(HighScore(rows), entry.wpm)
  {
    var all := SortDesc(rows + [entry]);
    var r := Insert(rows, entry);
    InsertIsPrefix(rows, entry, all);
    SortDescSorted(rows + [entry]);
    SortDescPermutation(rows + [entry]);
    HighScoreOfLedger(r);
    HighScoreOfLedger(all);
    HighScoreOfPermutation(all, rows + [entry]);
    HighScoreAppend(rows, entry);
    assert r[0] == all[0];
  }
}
