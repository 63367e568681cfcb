/**
 * The paged replay query (services/api/src/modules/events/routes.ts, lines 44-66) over
 * the table that the publisher fills (services/worker/src/jobs/publish-outbox.ts, lines
 * 118-224). An event that failed to publish is put back for later, so a later one of the
 * same session may be in the table before it: the table is any ascending selection of
 * the session's numbers, with holes or without.
 */
module ReplayTable {
  import opened RelaySteps
  import opened Wrappers

  const REPLAY_PAGE_SIZE := 100

  // ---------- The query ----------

  /** `sequence > after`, in ascending order of a table that is kept in that order. */
  function Newer(table: seq<int>, after: int): seq<int> {
    if table == [] then []
    else if table[0] > after then [table[0]] + Newer(table[1..], after)
    else Newer(table[1..], after)
  }

  function Take(s: seq<int>, n: nat): seq<int> {
    if |s| <= n then s else s[..n]
  }

  function ReplayPage(table: seq<int>, eventSequence: int, after: int): Page {
    var records := Take(Newer(table, after), REPLAY_PAGE_SIZE + 1);
    Page(Take(records, REPLAY_PAGE_SIZE), |records| > REPLAY_PAGE_SIZE, eventSequence)
  }

  // ---------- Tables ----------

  predicate Ascending(s: seq<int>) {
    forall i, j :: 0 <= i < j < |s| ==> s[i] < s[j]
  }

  predicate TableOf(table: seq<int>, size: int) {
    Ascending(table) && forall i :: 0 <= i < |table| ==> 1 <= table[i] <= size
  }

  lemma {:induction false} NewerOfBeyond(s: seq<int>, after: int)
    requires forall i :: 0 <= i < |s| ==> s[i] > after
    ensures Newer(s, after) == s
  {
    if s != [] {
      assert forall i :: 0 < i < |s| ==> s[i] == s[1..][i - 1];
      NewerOfBeyond(s[1..], after);
    }
  }

  lemma {:induction false} NewerIsSuffix(table: seq<int>, after: int) returns (k: nat)
    requires Ascending(table)
    ensures k <= |table| && Newer(table, after) == table[k..]
    ensures forall i :: 0 <= i < k ==> table[i] <= after
    ensures forall i :: k <= i < |table| ==> table[i] > after
  {
    if table == [] {
      k := 0;
    } else if table[0] > after {
      NewerOfBeyond(table, after);
      k := 0;
    } else {
      var rest := NewerIsSuffix(table[1..], after);
      assert forall i :: 0 < i < |table| ==> table[i] == table[1..][i - 1];
      k := rest + 1;
    }
  }

  /** A page is the stretch of the table right after the number asked for. */
  lemma PageIsSlice(table: seq<int>, eventSequence: int, after: int) returns (k: nat, m: nat)
    requires Ascending(table)
    ensures k <= m <= |table|
    ensures ReplayPage(table, eventSequence, after) == Page(table[k..m], m < |table|, eventSequence)
    ensures m - k <= 100 && (m < |table| ==> m == k + 100)
    ensures forall i :: 0 <= i < k ==> table[i] <= after
    ensures forall i :: k <= i < |table| ==> table[i] > after
  {
    k := NewerIsSuffix(table, after);
    m := Min(|table|, k + REPLAY_PAGE_SIZE);
    var newer := table[k..];
    assert |newer| > REPLAY_PAGE_SIZE ==> newer[..REPLAY_PAGE_SIZE] == table[k..m];
    assert |newer| > REPLAY_PAGE_SIZE + 1 ==> newer[..REPLAY_PAGE_SIZE + 1][..REPLAY_PAGE_SIZE] == table[k..m];
  }

  /**
   * In order, beyond what was asked for, and without leaving out anything of the table up
   * to its last number; at most a hundred, and all hundred exactly when it promises more.
   */
  lemma PageMeaning(table: seq<int>, eventSequence: int, after: int, size: int)
    requires TableOf(table, size)
    ensures var page := ReplayPage(table, eventSequence, after);
            && Ascending(page.events) && page.latestSequence == eventSequence
            && (forall x :: x in page.events ==> after < x <= size && x in table)
            && (forall x, e :: x in table && after < x <= e && e in page.events ==> x in page.events)
            && |page.events| <= 100 && (page.hasMore ==> |page.events| == 100)
            && (page.hasMore ==> exists x :: x in table && after < x && x !in page.events)
            && (!page.hasMore ==> forall x :: x in table && after < x ==> x in page.events)
  {
    var k, m := PageIsSlice(table, eventSequence, after);
    var page := ReplayPage(table, eventSequence, after);
    hide ReplayPage;
    assert |page.events| == m - k;
    forall i | k <= i < m ensures page.events[i - k] == table[i] {
    }
    if page.hasMore {
      assert table[m] in table && table[m] > after;
      forall j | 0 <= j < |page.events| ensures page.events[j] != table[m] {
        assert page.events[j] == table[j + k];
      }
    }
    forall x, e | x in table && after < x <= e && e in page.events ensures x in page.events {
      var i :| 0 <= i < |table| && table[i] == x;
      var j :| 0 <= j < |page.events| && page.events[j] == e;
      assert table[j + k] == e;
      assert page.events[i - k] == x;
    }
    if !page.hasMore {
      forall x | x in table && after < x ensures x in page.events {
        var i :| 0 <= i < |table| && table[i] == x;
        assert page.events[i - k] == x;
      }
    }
  }

  // ---------- Without holes from a number on ----------

  /** The last number reached from `after` without a hole. */
  function Reach(table: seq<int>, after: int, size: int): int
    requires after <= size
    decreases size - after
  {
    if after < size && after + 1 in table then Reach(table, after + 1, size) else after
  }

  lemma {:induction false} ReachMeaning(table: seq<int>, after: int, size: int)
    requires after <= size && TableOf(table, size)
    ensures after <= Reach(table, after, size) <= size
    ensures forall x :: after < x <= Reach(table, after, size) ==> x in table
    ensures Reach(table, after, size) + 1 !in table
    decreases size - after
  {
    if after < size && after + 1 in table {
      ReachMeaning(table, after + 1, size);
    }
  }

  lemma {:induction false} ReachThrough(table: seq<int>, after: int, through: int, size: int)
    requires after <= through <= size && forall x :: after < x <= through ==> x in table
    ensures Reach(table, after, size) == Reach(table, through, size)
    decreases through - after
  {
    if after < through {
      assert after + 1 in table;
      ReachThrough(table, after + 1, through, size);
    }
  }

  // ---------- Consecutive numbers ----------

  function Numbers(first: int, last: int): seq<int>
    decreases last - first
  {
    if first > last then [] else [first] + Numbers(first + 1, last)
  }

  lemma {:induction false} NumbersAt(first: int, last: int)
    ensures |Numbers(first, last)| == Max(0, last - first + 1)
    ensures forall k :: 0 <= k < |Numbers(first, last)| ==> Numbers(first, last)[k] == first + k
    decreases last - first
  {
    if first <= last {
      NumbersAt(first + 1, last);
    }
  }

  lemma NumbersJoin(first: int, middle: int, last: int)
    requires first <= middle + 1 && middle <= last
    ensures Numbers(first, middle) + Numbers(middle + 1, last) == Numbers(first, last)
  {
    NumbersAt(first, middle);
    NumbersAt(middle + 1, last);
    NumbersAt(first, last);
    hide Numbers;
  }

  /** Everything up to n has been published, and nothing after it. */
  lemma PrefixIsATable(n: nat, size: int, after: int)
    requires n <= size && 0 <= after <= size
    ensures TableOf(Numbers(1, n), size)
    ensures forall x :: x in Numbers(1, n) <==> 1 <= x <= n
    ensures Reach(Numbers(1, n), after, size) == Max(after, n)
  {
    NumbersAt(1, n);
    var table := Numbers(1, n);
    hide Numbers;
    forall x | 1 <= x <= n ensures x in table {
      assert table[x - 1] == x;
    }
    ReachMeaning(table, after, size);
    if after < n {
      ReachThrough(table, after, n, size);
      ReachMeaning(table, n, size);
    }
  }
}
