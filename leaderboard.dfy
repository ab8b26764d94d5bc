/** The high-score table (utils/leaderboard-manager.ts). `AddScore` appends
    the new entry, sorts the list by score, highest first, with a stable sort
    (entries with equal scores keep their input order, as ECMA-262 requires of
    `Array.prototype.sort`), and keeps the first ten. */
module Leaderboard {
  import opened Storage

  const MAX_ENTRIES: nat := 10

  /** What the caller submits: a high score without its id and date. */
  datatype NewScore = NewScore(playerName: string, score: real, difficulty: string, time: real)

  /** The leaderboard key, when present, holds a list of scores. */
  predicate ScoresShaped(store: Store)
  {
    LEADERBOARD_KEY in store ==> store[LEADERBOARD_KEY].ScoreList?
  }

  /** The stored scores, or the empty list when nothing is stored. */
  function GetScores(store: Store): (r: seq<HighScore>)
    requires ScoresShaped(store)
    ensures LEADERBOARD_KEY !in store ==> r == []
    ensures LEADERBOARD_KEY in store ==> store[LEADERBOARD_KEY] == ScoreList(r)
  {
    if LEADERBOARD_KEY in store then store[LEADERBOARD_KEY].scores else []
  }

  ghost predicate SortedByScore(s: seq<HighScore>)
  {
    forall i, j :: 0 <= i < j < |s| ==> s[i].score >= s[j].score
  }

  /** `[x]` when `x` scores exactly `v`, otherwise nothing. */
  function Keep(x: HighScore, v: real): seq<HighScore>
  {
    if x.score == v then [x] else []
  }

  /** The entries of `s` whose score is exactly `v`, in order. */
  function WithScore(s: seq<HighScore>, v: real): seq<HighScore>
  {
    if s == [] then [] else Keep(s[0], v) + WithScore(s[1..], v)
  }

  /** How many entries of `s` score at least `v`. */
  function CountAtLeast(s: seq<HighScore>, v: real): (n: nat)
    ensures n <= |s|
  {
    if s == [] then 0 else (if s[0].score >= v then 1 else 0) + CountAtLeast(s[1..], v)
  }

  /** Places `e` after every leading entry scoring at least as much: in a list
      sorted highest first, after all entries with a higher or equal score. */
  function InsertAfterTies(e: HighScore, s: seq<HighScore>): (r: seq<HighScore>)
    ensures |r| == |s| + 1
  {
    if s == [] then [e]
    else if s[0].score >= e.score then [s[0]] + InsertAfterTies(e, s[1..])
    else [e] + s
  }

  /** A stable sort, highest score first: the list sorted so far takes the
      next entry after everything ahead of it with an equal score. */
  function SortByScore(s: seq<HighScore>): (r: seq<HighScore>)
    ensures |r| == |s|
  {
    if s == [] then [] else InsertAfterTies(s[|s| - 1], SortByScore(s[..|s| - 1]))
  }

  /** The first `MAX_ENTRIES` entries of the sorted list. */
  function TopTen(s: seq<HighScore>): seq<HighScore>
  {
    var sorted := SortByScore(s);
    sorted[..if |sorted| < MAX_ENTRIES then |sorted| else MAX_ENTRIES]
  }

  /** `kept` is a best-ten selection of `all`: ten entries (all of them when
      fewer), sorted highest first, drawn from `all`, and nothing left out
      scores more than anything kept. */
  ghost predicate IsTopTenOf(all: seq<HighScore>, kept: seq<HighScore>)
  {
    && |kept| == (if |all| < MAX_ENTRIES then |all| else MAX_ENTRIES)
    && SortedByScore(kept)
    && multiset(kept) <= multiset(all)
    && forall x, y :: x in multiset(all) - multiset(kept) && y in kept ==> x.score <= y.score
  }

  // ---------------------------------------------------------------------
  // The sort is a sort

  lemma {:induction false} InsertIsPermutation(e: HighScore, s: seq<HighScore>)
    ensures multiset(InsertAfterTies(e, s)) == multiset(s) + multiset{e}
  {
    var r := InsertAfterTies(e, s);
    if s == [] {
      assert r == [e];
    } else if s[0].score >= e.score {
      var head, tail := s[0], s[1..];
      var rest := InsertAfterTies(e, tail);
      assert r == [head] + rest;
      InsertIsPermutation(e, tail);
      ConsKeepsPermutation(head, tail, rest, e);
      assert [head] + tail == s;
    } else {
      assert r == [e] + s;
      MultisetCons(e, s);
    }
  }

  lemma ConsKeepsPermutation(head: HighScore, tail: seq<HighScore>, rest: seq<HighScore>, e: HighScore)
    requires multiset(rest) == multiset(tail) + multiset{e}
    ensures multiset([head] + rest) == multiset([head] + tail) + multiset{e}
  {
    MultisetCons(head, rest);
    MultisetCons(head, tail);
  }

  lemma MultisetCons(x: HighScore, s: seq<HighScore>)
    ensures multiset([x] + s) == multiset{x} + multiset(s)
  {
  }

  lemma {:induction false} SortIsPermutation(s: seq<HighScore>)
    ensures multiset(SortByScore(s)) == multiset(s)
  {
    if s != [] {
      var init, last := s[..|s| - 1], s[|s| - 1];
      var sortedInit := SortByScore(init);
      SortIsPermutation(init);
      InsertIsPermutation(last, sortedInit);
      assert SortByScore(s) == InsertAfterTies(last, sortedInit);
      SplitLast(s);
    }
  }

  lemma SplitLast(s: seq<HighScore>)
    requires s != []
    ensures s == s[..|s| - 1] + [s[|s| - 1]]
    ensures multiset(s) == multiset(s[..|s| - 1]) + multiset{s[|s| - 1]}
  {
    assert s == s[..|s| - 1] + [s[|s| - 1]];
  }

  /** The tail of a sorted list is sorted and no higher than its head. */
  lemma SortedTail(s: seq<HighScore>)
    requires SortedByScore(s) && s != []
    ensures SortedByScore(s[1..])
    ensures forall k :: 0 <= k < |s[1..]| ==> s[1..][k].score <= s[0].score
  {
    var tail := s[1..];
    forall i, j | 0 <= i < j < |tail| ensures tail[i].score >= tail[j].score {
      assert tail[i] == s[i + 1] && tail[j] == s[j + 1];
    }
    forall k | 0 <= k < |tail| ensures tail[k].score <= s[0].score {
      assert tail[k] == s[k + 1];
    }
  }

  /** Inserting an entry no higher than `b` into a list no higher than `b`
      gives a list no higher than `b`. */
  lemma {:induction false} InsertBelow(e: HighScore, s: seq<HighScore>, b: real)
    requires e.score <= b
    requires forall k :: 0 <= k < |s| ==> s[k].score <= b
    ensures forall k :: 0 <= k < |InsertAfterTies(e, s)| ==> InsertAfterTies(e, s)[k].score <= b
  {
    if s != [] && s[0].score >= e.score {
      InsertBelow(e, s[1..], b);
      assert InsertAfterTies(e, s) == [s[0]] + InsertAfterTies(e, s[1..]);
    }
  }

  lemma {:induction false} InsertKeepsSorted(e: HighScore, s: seq<HighScore>)
    requires SortedByScore(s)
    ensures SortedByScore(InsertAfterTies(e, s))
  {
    if s == [] {
    } else if s[0].score >= e.score {
      var tail := s[1..];
      var rest := InsertAfterTies(e, tail);
      SortedTail(s);
      InsertKeepsSorted(e, tail);
      InsertBelow(e, tail, s[0].score);
      var r := InsertAfterTies(e, s);
      assert r == [s[0]] + rest;
      forall i, j | 0 <= i < j < |r| ensures r[i].score >= r[j].score {
        assert r[j] == rest[j - 1];
        if i > 0 {
          assert r[i] == rest[i - 1];
        }
      }
    } else {
      var r := InsertAfterTies(e, s);
      assert r == [e] + s;
      forall i, j | 0 <= i < j < |r| ensures r[i].score >= r[j].score {
        assert r[j] == s[j - 1];
        if i > 0 {
          assert r[i] == s[i - 1];
        } else {
          assert s[0].score >= s[j - 1].score || j == 1;
        }
      }
    }
  }

  lemma {:induction false} SortIsSorted(s: seq<HighScore>)
    ensures SortedByScore(SortByScore(s))
  {
    if s != [] {
      SortIsSorted(s[..|s| - 1]);
      InsertKeepsSorted(s[|s| - 1], SortByScore(s[..|s| - 1]));
    }
  }

  // ---------------------------------------------------------------------
  // The sort is stable

  lemma {:induction false} WithScoreAppend(a: seq<HighScore>, b: seq<HighScore>, v: real)
    ensures WithScore(a + b, v) == WithScore(a, v) + WithScore(b, v)
  {
    if a == [] {
      assert a + b == b;
    } else {
      var ab := a + b;
      assert ab != [] && ab[0] == a[0];
      assert ab[1..] == a[1..] + b;
      WithScoreAppend(a[1..], b, v);
      var k, wa, wb := Keep(a[0], v), WithScore(a[1..], v), WithScore(b, v);
      assert WithScore(ab, v) == k + (wa + wb);
      assert WithScore(a, v) == k + wa;
      assert k + (wa + wb) == (k + wa) + wb;
    }
  }

  lemma {:induction false} WithScoreAllBelow(s: seq<HighScore>, v: real)
    requires forall k :: 0 <= k < |s| ==> s[k].score < v
    ensures WithScore(s, v) == []
  {
    if s != [] {
      WithScoreAllBelow(s[1..], v);
      assert Keep(s[0], v) == [];
    }
  }

  lemma WithScoreCons(x: HighScore, s: seq<HighScore>, v: real)
    ensures WithScore([x] + s, v) == Keep(x, v) + WithScore(s, v)
  {
    var xs := [x] + s;
    assert xs[0] == x && xs[1..] == s;
  }

  /** An entry placed in front of a list it outscores is the last of its score. */
  lemma InsertStableFront(e: HighScore, s: seq<HighScore>, v: real)
    requires SortedByScore(s)
    requires s != [] && s[0].score < e.score
    ensures WithScore([e] + s, v) == WithScore(s, v) + Keep(e, v)
  {
    WithScoreCons(e, s, v);
    if e.score == v {
      forall k | 0 <= k < |s| ensures s[k].score < v {
        if k > 0 {
          assert s[0].score >= s[k].score;
        }
      }
      WithScoreAllBelow(s, v);
    }
  }

  lemma {:induction false} InsertStable(e: HighScore, s: seq<HighScore>, v: real)
    requires SortedByScore(s)
    ensures WithScore(InsertAfterTies(e, s), v) == WithScore(s, v) + Keep(e, v)
  {
    if s == [] {
      assert InsertAfterTies(e, s) == [e] + s;
      WithScoreCons(e, s, v);
    } else if s[0].score >= e.score {
      var rest := InsertAfterTies(e, s[1..]);
      SortedTail(s);
      InsertStable(e, s[1..], v);
      assert InsertAfterTies(e, s) == [s[0]] + rest;
      WithScoreCons(s[0], rest, v);
      WithScoreCons(s[0], s[1..], v);
      assert [s[0]] + s[1..] == s;
      var k, ws, ke := Keep(s[0], v), WithScore(s[1..], v), Keep(e, v);
      assert k + (ws + ke) == (k + ws) + ke;
    } else {
      assert InsertAfterTies(e, s) == [e] + s;
      InsertStableFront(e, s, v);
    }
  }

  /** Stability: for every score, the entries with that score appear in the
      sorted list in the same order as in the input. */
  lemma {:induction false} SortIsStable(s: seq<HighScore>, v: real)
    ensures WithScore(SortByScore(s), v) == WithScore(s, v)
  {
    if s != [] {
      var init, last := s[..|s| - 1], s[|s| - 1];
      SortIsStable(init, v);
      SortIsSorted(init);
      InsertStable(last, SortByScore(init), v);
      assert s == init + [last];
      WithScoreAppend(init, [last], v);
    }
  }

  // ---------------------------------------------------------------------
  // Where a new entry lands

  lemma {:induction false} CountAtLeastInsert(e: HighScore, s: seq<HighScore>, v: real)
    ensures CountAtLeast(InsertAfterTies(e, s), v) == CountAtLeast(s, v) + (if e.score >= v then 1 else 0)
  {
    if s == [] {
    } else if s[0].score >= e.score {
      CountAtLeastInsert(e, s[1..], v);
      assert InsertAfterTies(e, s)[1..] == InsertAfterTies(e, s[1..]);
    } else {
      assert InsertAfterTies(e, s)[1..] == s;
    }
  }

  lemma {:induction false} CountAtLeastSort(s: seq<HighScore>, v: real)
    ensures CountAtLeast(SortByScore(s), v) == CountAtLeast(s, v)
  {
    if s != [] {
      var init, last := s[..|s| - 1], s[|s| - 1];
      CountAtLeastSort(init, v);
      CountAtLeastInsert(last, SortByScore(init), v);
      assert s == init + [last];
      CountAtLeastAppend(init, [last], v);
    }
  }

  lemma {:induction false} CountAtLeastAppend(a: seq<HighScore>, b: seq<HighScore>, v: real)
    ensures CountAtLeast(a + b, v) == CountAtLeast(a, v) + CountAtLeast(b, v)
  {
    if a == [] {
      assert a + b == b;
    } else {
      assert (a + b)[1..] == a[1..] + b;
      CountAtLeastAppend(a[1..], b, v);
    }
  }

  lemma {:induction false} CountAtLeastAllBelow(s: seq<HighScore>, v: real)
    requires forall k :: 0 <= k < |s| ==> s[k].score < v
    ensures CountAtLeast(s, v) == 0
  {
    if s != [] {
      CountAtLeastAllBelow(s[1..], v);
    }
  }

  /** In a sorted list, `e` goes right after the entries scoring at least as
      much as it does. */
  lemma {:induction false} InsertPosition(e: HighScore, s: seq<HighScore>)
    requires SortedByScore(s)
    ensures CountAtLeast(s, e.score) <= |s|
    ensures InsertAfterTies(e, s)
         == s[..CountAtLeast(s, e.score)] + [e] + s[CountAtLeast(s, e.score)..]
  {
    if s == [] {
    } else if s[0].score >= e.score {
      InsertPosition(e, s[1..]);
      var k := CountAtLeast(s[1..], e.score);
      assert s[..k + 1] == [s[0]] + s[1..][..k];
      assert s[k + 1..] == s[1..][k..];
    } else {
      CountAtLeastAllBelow(s, e.score);
    }
  }

  /** Adding `e` to `s`: the sorted list is the old one sorted, with `e`
      placed after every old entry whose score is at least its own. */
  lemma NewEntryRank(s: seq<HighScore>, e: HighScore)
    ensures CountAtLeast(s, e.score) <= |s|
    ensures SortByScore(s + [e])
         == SortByScore(s)[..CountAtLeast(s, e.score)] + [e] + SortByScore(s)[CountAtLeast(s, e.score)..]
  {
    assert (s + [e])[..|s + [e]| - 1] == s;
    SortIsSorted(s);
    CountAtLeastSort(s, e.score);
    InsertPosition(e, SortByScore(s));
  }

  // ---------------------------------------------------------------------
  // Properties of the kept list

  /** Taking a prefix away from a list leaves the suffix's entries. */
  lemma MultisetSuffix(t: seq<HighScore>, k: nat)
    requires k <= |t|
    ensures multiset(t) == multiset(t[..k]) + multiset(t[k..])
    ensures multiset(t) - multiset(t[..k]) == multiset(t[k..])
  {
    assert t == t[..k] + t[k..];
    assert multiset(t) == multiset(t[..k]) + multiset(t[k..]);
  }

  /** In a sorted list, whatever lies past position `k` scores no more than
      anything before it. */
  lemma PrefixDominates(t: seq<HighScore>, k: nat)
    requires SortedByScore(t) && k <= |t|
    ensures forall x, y :: x in multiset(t) - multiset(t[..k]) && y in t[..k] ==> x.score <= y.score
  {
    MultisetSuffix(t, k);
    forall x, y | x in multiset(t[k..]) && y in t[..k]
      ensures x.score <= y.score
    {
      assert x in t[k..];
      var j :| 0 <= j < |t[k..]| && t[k..][j] == x;
      var i :| 0 <= i < k && t[..k][i] == y;
      assert t[i] == y && t[k + j] == x;
    }
  }

  lemma SortedPrefix(t: seq<HighScore>, k: nat)
    requires SortedByScore(t) && k <= |t|
    ensures SortedByScore(t[..k])
  {
    forall i, j | 0 <= i < j < k ensures t[..k][i].score >= t[..k][j].score {
      assert t[..k][i] == t[i] && t[..k][j] == t[j];
    }
  }

  /** The kept list is the ten best entries (or all of them when fewer),
      sorted, drawn from the input, and nothing dropped beats anything kept. */
  lemma TopTenIsTopK(s: seq<HighScore>)
    ensures IsTopTenOf(s, TopTen(s))
  {
    var sorted := SortByScore(s);
    var k := if |sorted| < MAX_ENTRIES then |sorted| else MAX_ENTRIES;
    var top := sorted[..k];
    assert TopTen(s) == top;
    SortIsSorted(s);
    SortIsPermutation(s);
    SortedPrefix(sorted, k);
    PrefixDominates(sorted, k);
    MultisetSuffix(sorted, k);
    assert multiset(top) <= multiset(sorted);
  }

  // ---------------------------------------------------------------------
  // The operation

  /** Stores the new entry, with the supplied fresh id and date, among the
      ten best; returns the new store and the entry (even when it was not
      kept). */
  function AddScore(store: Store, entry: NewScore, id: string, now: int): (r: (Store, HighScore))
    requires ScoresShaped(store)
    ensures r.1 == HighScore(id, entry.playerName, entry.score, entry.difficulty, entry.time, now)
    ensures ScoresShaped(r.0) && SameExcept(store, r.0, LEADERBOARD_KEY)
    ensures IsTopTenOf(GetScores(store) + [r.1], GetScores(r.0))
  {
    var created := HighScore(id, entry.playerName, entry.score, entry.difficulty, entry.time, now);
    var all := GetScores(store) + [created];
    var kept := TopTen(all);
    TopTenIsTopK(all);
    var written := store[LEADERBOARD_KEY := ScoreList(kept)];
    assert GetScores(written) == kept;
    (written, created)
  }

  /** With a fresh id, the entry `AddScore` creates is on the new leaderboard
      exactly when fewer than ten stored entries score at least as much. */
  lemma AddScoreKeepsNewEntryIff(store: Store, entry: NewScore, id: string, now: int)
    requires ScoresShaped(store)
    requires forall e :: e in GetScores(store) ==> e.id != id
    ensures var r := AddScore(store, entry, id, now);
      r.1 in GetScores(r.0) <==> CountAtLeast(GetScores(store), entry.score) < MAX_ENTRIES
  {
    var r := AddScore(store, entry, id, now);
    var before := GetScores(store);
    assert GetScores(r.0) == TopTen(before + [r.1]);
    NewEntryKeptIff(before, r.1);
  }

  /** While the leaderboard holds fewer than ten entries, a new entry with a
      fresh id is always kept. */
  lemma AddScoreToShortBoard(store: Store, entry: NewScore, id: string, now: int)
    requires ScoresShaped(store)
    requires forall e :: e in GetScores(store) ==> e.id != id
    requires |GetScores(store)| < MAX_ENTRIES
    ensures var r := AddScore(store, entry, id, now);
      r.1 in GetScores(r.0) && |GetScores(r.0)| == |GetScores(store)| + 1
  {
    AddScoreKeepsNewEntryIff(store, entry, id, now);
  }

  /** A new entry with a fresh id is kept exactly when fewer than ten stored
      entries score at least as much as it does. */
  lemma NewEntryKeptIff(s: seq<HighScore>, e: HighScore)
    requires forall x :: x in s ==> x.id != e.id
    ensures e in TopTen(s + [e]) <==> CountAtLeast(s, e.score) < MAX_ENTRIES
  {
    NewEntryRank(s, e);
    var sorted := SortByScore(s);
    var k := CountAtLeast(s, e.score);
    var all := SortByScore(s + [e]);
    if k < MAX_ENTRIES {
      assert all[k] == e;
    } else {
      assert TopTen(s + [e]) == sorted[..MAX_ENTRIES];
      SortIsPermutation(s);
      forall x | x in sorted[..MAX_ENTRIES] ensures x != e {
        assert x in multiset(s);
      }
    }
  }

  lemma {:induction false} CountAtLeastAllAbove(s: seq<HighScore>, v: real)
    requires forall k :: 0 <= k < |s| ==> s[k].score >= v
    ensures CountAtLeast(s, v) == |s|
  {
    if s != [] {
      CountAtLeastAllAbove(s[1..], v);
    }
  }

  /** In a sorted list, if the n-th entry scores at least `v`, so do the
      n entries up to it. */
  lemma SortedCountAtLeast(t: seq<HighScore>, n: nat, v: real)
    requires SortedByScore(t) && 0 < n <= |t| && t[n - 1].score >= v
    ensures CountAtLeast(t, v) >= n
  {
    var top := t[..n];
    forall k | 0 <= k < |top| ensures top[k].score >= v {
      assert top[k] == t[k];
    }
    CountAtLeastAllAbove(top, v);
    assert t == top + t[n..];
    CountAtLeastAppend(top, t[n..], v);
  }

  /** A new score equal to the tenth stored score is not kept: the stable sort
      places it after the ten entries that were already there. */
  lemma TieForTenthIsDropped(s: seq<HighScore>, e: HighScore)
    requires forall x :: x in s ==> x.id != e.id
    requires |s| >= MAX_ENTRIES
    requires e.score == SortByScore(s)[MAX_ENTRIES - 1].score
    ensures e !in TopTen(s + [e])
  {
    SortIsSorted(s);
    SortedCountAtLeast(SortByScore(s), MAX_ENTRIES, e.score);
    CountAtLeastSort(s, e.score);
    NewEntryKeptIff(s, e);
  }
}
