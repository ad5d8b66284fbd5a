/** packages/local-control/src/governed-summary.ts and operator.ts: pages of a history, their check, and a reader of them. */
module HistoryPaging {
  import opened Options

  datatype Transition<T> = Transition(sequence: nat, content: T)

  datatype Page<T> = Page(total: nat, rows: seq<Transition<T>>, next: Option<nat>)

  /** The store numbers a subtask's transitions 1, 2, 3, ... */
  predicate Numbered<T>(history: seq<Transition<T>>) { forall i :: 0 <= i < |history| ==> history[i].sequence == i + 1 }

  function After<T>(history: seq<Transition<T>>, after: nat): seq<Transition<T>> {
    if history == [] then []
    else (if history[0].sequence > after then [history[0]] else []) + After(history[1..], after)
  }

  function Take<T>(s: seq<T>, limit: nat): seq<T> { if |s| <= limit then s else s[..limit] }

  /** summarizeGovernedHistory. */
  function SummarizeGovernedHistory<T>(history: seq<Transition<T>>, after: nat, limit: nat): Page<T> {
    var rows := Take(After(history, after), limit);
    Page(|history|, rows,
         if rows != [] && rows[|rows| - 1].sequence < |history| then Some(rows[|rows| - 1].sequence) else None)
  }

  function Min(a: int, b: int): int { if a < b then a else b }

  function Max(a: int, b: int): int { if a > b then a else b }

  /** The sequence, length and cursor checks of isGovernedHistory. */
  predicate IsGovernedHistory<T>(page: Page<T>, after: nat, limit: nat) {
    var last := if page.rows == [] then after else page.rows[|page.rows| - 1].sequence;
    && |page.rows| == Min(limit, Max(0, page.total - after))
    && (forall i :: 0 <= i < |page.rows| ==> page.rows[i].sequence == after + i + 1 && page.rows[i].sequence <= page.total)
    && page.next == if page.rows != [] && last < page.total then Some(last) else None
  }

  // ---------------------------------------------------------------- one page

  lemma {:induction false} AfterIsSuffix<T>(history: seq<Transition<T>>, after: nat, offset: nat)
    requires forall i :: 0 <= i < |history| ==> history[i].sequence == offset + i + 1
    ensures After(history, after) == history[Min(|history|, Max(0, after - offset))..]
  {
    if history != [] {
      AfterIsSuffix(history[1..], after, offset + 1);
    }
  }

  /** A page is a slice of the history, and its cursor says whether anything is left. */
  lemma PageIsSlice<T>(history: seq<Transition<T>>, after: nat, limit: nat)
    requires Numbered(history)
    ensures var page := SummarizeGovernedHistory(history, after, limit);
      && page.rows == history[Min(|history|, after)..Min(|history|, after + limit)]
      && page.total == |history|
      && page.next == if limit > 0 && after + limit < |history| then Some(after + limit) else None
  {
    hide After;
    AfterIsSuffix(history, after, 0);
    var start, stop := Min(|history|, after), Min(|history|, after + limit);
    assert Take(history[start..], limit) == history[start..stop];
  }

  /** The client accepts every page the server builds. */
  lemma ServerPagesAreAccepted<T>(history: seq<Transition<T>>, after: nat, limit: nat)
    requires Numbered(history)
    ensures IsGovernedHistory(SummarizeGovernedHistory(history, after, limit), after, limit)
  {
    PageIsSlice(history, after, limit);
  }

  /** The client accepts nothing else: an accepted page is the server's page of a numbered history of that length. */
  lemma AcceptedPagesAreServerPages<T>(page: Page<T>, after: nat, limit: nat, filler: T) returns (history: seq<Transition<T>>)
    requires IsGovernedHistory(page, after, limit)
    ensures Numbered(history) && |history| == page.total && SummarizeGovernedHistory(history, after, limit) == page
  {
    hide After, SummarizeGovernedHistory;
    var n := page.total;
    if after >= n {
      history := seq(n, i requires 0 <= i < n => Transition(i + 1, filler));
      assert page.rows == history[n..n];
    } else {
      var before := seq(after, i requires 0 <= i < after => Transition(i + 1, filler));
      var rest := n - after - |page.rows|;
      var later := seq(rest, i requires 0 <= i < rest => Transition(after + |page.rows| + i + 1, filler));
      history := before + page.rows + later;
      assert page.rows == history[after..after + |page.rows|];
    }
    PageIsSlice(history, after, limit);
  }

  lemma NumberedPrefix<T>(history: seq<Transition<T>>, longer: seq<Transition<T>>)
    requires Numbered(longer) && history <= longer
    ensures Numbered(history)
  {
    forall i | 0 <= i < |history| ensures history[i].sequence == i + 1 { assert history[i] == longer[i]; }
  }

  /** Appending leaves a full page as it is and only extends a partial one. */
  lemma AppendingKeepsPages<T>(history: seq<Transition<T>>, longer: seq<Transition<T>>, after: nat, limit: nat)
    requires Numbered(longer) && history <= longer
    ensures var page, later := SummarizeGovernedHistory(history, after, limit), SummarizeGovernedHistory(longer, after, limit);
      page.rows <= later.rows && (|page.rows| == limit ==> page.rows == later.rows)
  {
    hide After, SummarizeGovernedHistory;
    NumberedPrefix(history, longer);
    PageIsSlice(history, after, limit);
    PageIsSlice(longer, after, limit);
    var n, m := |history|, |longer|;
    assert history == longer[..n];
    if after < n {
      var stop, end := Min(n, after + limit), Min(m, after + limit);
      assert history[after..stop] == longer[after..stop] == longer[after..end][..stop - after];
    }
  }

  // ---------------------------------------------------------------- following the cursor

  datatype Walk<T> = Walk(rows: seq<Transition<T>>, cursor: Option<nat>)

  /** The first |histories| pages of a reader that starts at 0; page k is cut from the history as it is then. */
  function Follow<T>(histories: seq<seq<Transition<T>>>, limit: nat): Walk<T> {
    if histories == [] then Walk([], Some(0))
    else
      var sofar := Follow(histories[..|histories| - 1], limit);
      if sofar.cursor.None? then sofar
      else
        var page := SummarizeGovernedHistory(histories[|histories| - 1], sofar.cursor.value, limit);
        Walk(sofar.rows + page.rows, page.next)
  }

  /** Each history continues the one before. */
  ghost predicate Growing<T>(histories: seq<seq<Transition<T>>>) {
    && (forall k :: 0 <= k < |histories| ==> Numbered(histories[k]))
    && (forall j, k :: 0 <= j <= k < |histories| ==> histories[j] <= histories[k])
  }

  /**
   * A reader that goes on has read exactly the transitions up to its cursor, a full page each time; a reader that
   * stopped has read one of the histories from start to end.
   */
  lemma {:induction false} FollowReadsInOrder<T>(histories: seq<seq<Transition<T>>>, limit: nat)
    requires limit > 0 && histories != [] && Growing(histories)
    ensures var walk := Follow(histories, limit); var last := histories[|histories| - 1];
      && walk.rows <= last
      && (walk.cursor.Some? ==> walk.cursor.value == |walk.rows| == |histories| * limit && |walk.rows| < |last|)
      && (walk.cursor.None? ==> walk.rows in histories)
    decreases |histories|
  {
    hide After, SummarizeGovernedHistory;
    var n := |histories| - 1;
    var last := histories[n];
    var front := histories[..n];
    var sofar := Follow(front, limit);
    if n > 0 {
      FollowReadsInOrder(front, limit);
      assert front[n - 1] == histories[n - 1] <= last;
      Prefixes(sofar.rows, histories[n - 1], last);
    }
    if sofar.cursor.Some? {
      NextPage(last, n, limit);
      assert sofar.rows == last[..n * limit];
      assert last in histories;
    }
  }

  /** The next page after n full ones. */
  lemma NextPage<T>(history: seq<Transition<T>>, n: nat, limit: nat)
    requires limit > 0 && Numbered(history) && n * limit <= |history|
    ensures var page := SummarizeGovernedHistory(history, n * limit, limit); var rows := history[..n * limit] + page.rows;
      && rows <= history
      && (page.next.Some? ==> page.next.value == |rows| == (n + 1) * limit < |history|)
      && (page.next.None? ==> rows == history)
  {
    hide After, SummarizeGovernedHistory;
    var at := n * limit;
    PageIsSlice(history, at, limit);
    assert at + limit == (n + 1) * limit;
    var stop := Min(|history|, at + limit);
    assert history[..at] + history[at..stop] == history[..stop];
    assert history[..|history|] == history;
  }

  lemma Prefixes<T>(a: seq<T>, b: seq<T>, c: seq<T>)
    requires a <= b <= c
    ensures a <= c
  {
    assert a == b[..|a|] == c[..|b|][..|a|] == c[..|a|];
  }

  /** Against a history that stays at most `bound` long the reader stops, after no more than bound / limit + 1 pages. */
  lemma FollowStops<T>(histories: seq<seq<Transition<T>>>, limit: nat, bound: nat)
    requires limit > 0 && Growing(histories) && |histories| > bound / limit
    requires forall k :: 0 <= k < |histories| ==> |histories[k]| <= bound
    ensures Follow(histories, limit).cursor.None? && Follow(histories, limit).rows in histories
  {
    FollowReadsInOrder(histories, limit);
    DivideBound(|histories|, limit, bound);
  }

  lemma MulCancel(a: int, b: int, c: nat)
    ensures a * c < b * c ==> a < b
  {
    if a >= b {
      assert (a - b) * c >= 0;
      assert (a - b) * c == a * c - b * c;
    }
  }

  lemma DivideBound(pages: nat, limit: nat, bound: nat)
    requires limit > 0
    ensures pages * limit < bound ==> pages <= bound / limit
    ensures bound / limit * limit <= bound
  {
    var q := bound / limit;
    assert bound == q * limit + bound % limit;
    assert (q + 1) * limit == q * limit + limit;
    MulCancel(pages, q + 1, limit);
  }

  /** On a fixed history the walk yields every transition once, in order. */
  lemma FollowYieldsEverything<T>(history: seq<Transition<T>>, limit: nat, pages: nat)
    requires limit > 0 && Numbered(history) && pages > |history| / limit
    ensures Follow(seq(pages, _ => history), limit).rows == history
    ensures Follow(seq(pages, _ => history), limit).cursor.None?
  {
    var histories := seq(pages, _ => history);
    FollowStops(histories, limit, |history|);
  }

  // ---------------------------------------------------------------- the command's bounds

  /** The bounds parseOperatorCommand puts on a request. */
  predicate RequestAccepted(after: nat, limit: nat) { after <= 9999 && 1 <= limit <= 20 }

  /** The cursor of a reader that has followed k pages of a history. */
  ghost function CursorAfter<T>(history: seq<Transition<T>>, limit: nat, k: nat): Option<nat> {
    Follow(seq(k, _ => history), limit).cursor
  }

  /** The reader has a cursor before each page that is not past the end, and stops there. */
  lemma {:induction false} CursorAt<T>(history: seq<Transition<T>>, limit: nat, k: nat)
    requires Numbered(history) && limit > 0
    ensures CursorAfter(history, limit, k) == if k == 0 || k * limit < |history| then Some(k * limit) else None
  {
    if k > 0 {
      hide CursorAfter, SummarizeGovernedHistory, After, Numbered;
      CursorAt(history, limit, k - 1);
      OnePageMore(history, limit, k - 1);
      var at, next := (k - 1) * limit, k * limit;
      assert at + limit == next;
      NextCursor(history, at, limit);
    } else {
      NoPages(history, limit);
    }
  }

  lemma NextCursor<T>(history: seq<Transition<T>>, after: nat, limit: nat)
    requires Numbered(history) && limit > 0
    ensures SummarizeGovernedHistory(history, after, limit).next ==
      if after + limit < |history| then Some(after + limit) else None
  {
    PageIsSlice(history, after, limit);
  }

  lemma OnePageMore<T>(history: seq<Transition<T>>, limit: nat, k: nat)
    ensures var cursor := CursorAfter(history, limit, k);
      CursorAfter(history, limit, k + 1) ==
      if cursor.None? then None else SummarizeGovernedHistory(history, cursor.value, limit).next
  {
    hide SummarizeGovernedHistory;
    var histories := seq(k + 1, _ => history);
    assert histories[..k] == seq(k, _ => history);
    assert Follow(histories, limit).cursor == CursorAfter(history, limit, k + 1);
  }

  /** Where the last page of a history starts. */
  function LastCursor(total: nat, limit: nat): nat
    requires limit > 0
  {
    if total == 0 then 0 else (total - 1) / limit * limit
  }

  /** The cursors a reader meets are the multiples of the limit up to the last one, which it does meet. */
  lemma CursorsUpToLast<T>(history: seq<Transition<T>>, limit: nat, k: nat)
    requires Numbered(history) && limit > 0
    ensures CursorAfter(history, limit, k).Some? ==> CursorAfter(history, limit, k).value <= LastCursor(|history|, limit)
    ensures history != [] ==> CursorAfter(history, limit, (|history| - 1) / limit) == Some(LastCursor(|history|, limit))
  {
    CursorAt(history, limit, k);
    if history != [] {
      var n := |history|;
      var last := (n - 1) / limit;
      CursorAt(history, limit, last);
      DivideBound(k, limit, n - 1);
      if k * limit == n - 1 {
        ExactQuotient(k, limit);
      }
      MulCancel(last, k, limit);
    }
  }

  /**
   * The command line accepts every cursor of a history exactly when it accepts the limit and the last cursor is within its
   * bound.
   */
  lemma CursorsWithinBounds<T>(history: seq<Transition<T>>, limit: nat)
    requires Numbered(history)
    ensures (forall k: nat :: CursorAfter(history, limit, k).Some? ==>
                RequestAccepted(CursorAfter(history, limit, k).value, limit)) <==>
      (1 <= limit <= 20 && LastCursor(|history|, limit) <= 9999)
  {
    hide Follow;
    assert CursorAfter(history, limit, 0) == Some(0) by { NoPages(history, limit); }
    if 1 <= limit <= 20 {
      forall k: nat | CursorAfter(history, limit, k).Some?
        ensures CursorAfter(history, limit, k).value <= LastCursor(|history|, limit)
      {
        CursorsUpToLast(history, limit, k);
      }
      CursorsUpToLast(history, limit, 0);
    }
  }

  lemma NoPages<T>(history: seq<Transition<T>>, limit: nat)
    ensures CursorAfter(history, limit, 0) == Some(0)
  {}

  /** A history of 10001 transitions, 20 to a page, ends in a cursor that the command line refuses. */
  lemma LongHistoryIsCutShort<T>(content: T)
    ensures var history := seq(10001, i requires 0 <= i < 10001 => Transition(i + 1, content));
      && Numbered(history)
      && CursorAfter(history, 20, 500) == Some(10000) && !RequestAccepted(10000, 20)
      && Follow(seq(500, _ => history), 20).rows == history[..10000]
  {
    hide Follow;
    var history := seq(10001, i requires 0 <= i < 10001 => Transition(i + 1, content));
    CursorAt(history, 20, 500);
    FollowReadsInOrder(seq(500, _ => history), 20);
  }

  lemma ExactQuotient(k: nat, limit: nat)
    requires limit > 0
    ensures k * limit / limit == k
  {
    var q := k * limit / limit;
    assert k * limit == q * limit + k * limit % limit;
    MulCancel(k, q + 1, limit);
    MulCancel(q, k + 1, limit);
    assert (q + 1) * limit == q * limit + limit && (k + 1) * limit == k * limit + limit;
  }
}
