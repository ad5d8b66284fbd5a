/** packages/domain/src/big-task-execution.ts: the execution window of a status and its amendments, in milliseconds. */
module ExecutionWindows {
  import opened Options
  import opened Sorting

  datatype Window = Window(previousExpiresAt: int, renewedAt: int, durationMilliseconds: nat)

  datatype QaRecovery = QaRecovery(previousExpiresAt: int, authorizedAt: int, durationMilliseconds: nat)

  // The schema's fixed timestamp format makes the order of its strings the order of time, so times are numbers here.

  /** The fields the window check reads. */
  datatype Status = Status(
    approved: bool, startedAt: Option<int>, expiresAt: Option<int>, durationMilliseconds: nat, roleCalls: nat,
    windowRenewal: Option<Window>, additionalWindowRenewals: Option<seq<Window>>, qaRecovery: Option<QaRecovery>)

  /** The schema's bounds on durations. */
  predicate WellTyped(v: Status) {
    && v.durationMilliseconds >= 1
    && (v.windowRenewal.Some? ==> v.windowRenewal.value.durationMilliseconds >= 1)
    && (v.additionalWindowRenewals.Some? ==>
          v.additionalWindowRenewals.value != [] && forall w :: w in v.additionalWindowRenewals.value ==> w.durationMilliseconds >= 1)
    && (v.qaRecovery.Some? ==> v.qaRecovery.value.durationMilliseconds >= 1)
  }

  /** A renewal (expiredOnly) or the QA recovery, which may come before the window has expired. */
  datatype Amendment = Amendment(at: int, previousExpiresAt: int, duration: nat, expiredOnly: bool)

  predicate AtMost(a: Amendment, b: Amendment) { a.at <= b.at }

  function Windows(v: Status): seq<Window> {
    if v.windowRenewal.None? then []
    else [v.windowRenewal.value] + if v.additionalWindowRenewals.Some? then v.additionalWindowRenewals.value else []
  }

  function Renewal(w: Window): Amendment { Amendment(w.renewedAt, w.previousExpiresAt, w.durationMilliseconds, true) }

  function Recovery(r: QaRecovery): Amendment { Amendment(r.authorizedAt, r.previousExpiresAt, r.durationMilliseconds, false) }

  function Renewals(windows: seq<Window>): (r: seq<Amendment>)
    ensures |r| == |windows| && forall i :: 0 <= i < |r| ==> r[i] == Renewal(windows[i])
  {
    seq(|windows|, i requires 0 <= i < |windows| => Renewal(windows[i]))
  }

  /** The amendments before sorting: the renewals, then the QA recovery. */
  function Listed(v: Status): seq<Amendment> {
    Renewals(Windows(v)) +
    if v.qaRecovery.None? then []
    else [Recovery(v.qaRecovery.value)]
  }

  function Amendments(v: Status): seq<Amendment> { Sort(Listed(v), AtMost) }

  /** The expiry after a list of amendments; None where one of them is not chained to the expiry before it. */
  function Expiry(startedAt: int, initial: int, list: seq<Amendment>): Option<int> {
    if list == [] then Some(initial)
    else
      var a := list[|list| - 1];
      match Expiry(startedAt, initial, list[..|list| - 1])
      case None => None
      case Some(expiry) =>
        if a.previousExpiresAt != expiry || a.at < startedAt || (a.expiredOnly && a.at < expiry) then None
        else Some(a.at + a.duration)
  }

  predicate InRenewalOrder(windows: seq<Window>) {
    forall i :: 0 < i < |windows| ==> windows[i].renewedAt >= windows[i - 1].renewedAt
  }

  /** The window part of BigTaskExecutionStatusSchema. */
  predicate WindowsAccepted(v: Status) {
    if v.approved then
      v.startedAt.None? && v.expiresAt.None? && v.roleCalls == 0 &&
      v.windowRenewal.None? && v.additionalWindowRenewals.None? && v.qaRecovery.None?
    else
      && v.startedAt.Some? && v.expiresAt.Some? && !(v.additionalWindowRenewals.Some? && v.windowRenewal.None?)
      && InRenewalOrder(Windows(v))
      && Expiry(v.startedAt.value, v.startedAt.value + v.durationMilliseconds, Amendments(v)) == v.expiresAt
  }

  method CheckWindows(v: Status) returns (ok: bool)
    ensures ok <==> WindowsAccepted(v)
  {
    hide Windows, Amendments;
    if v.approved {
      return v.startedAt.None? && v.expiresAt.None? && v.roleCalls == 0 &&
             v.windowRenewal.None? && v.additionalWindowRenewals.None? && v.qaRecovery.None?;
    }
    if v.startedAt.None? || v.expiresAt.None? || (v.additionalWindowRenewals.Some? && v.windowRenewal.None?) {
      return false;
    }
    var windows := Windows(v);
    if exists i :: 0 < i < |windows| && windows[i].renewedAt < windows[i - 1].renewedAt {
      return false;
    }
    var amendments := Amendments(v);
    var startedAt := v.startedAt.value;
    var expiry := startedAt + v.durationMilliseconds;
    ghost var initial := expiry;
    for i := 0 to |amendments|
      invariant Expiry(startedAt, initial, amendments[..i]) == Some(expiry)
    {
      assert amendments[..i + 1][..i] == amendments[..i];
      var a := amendments[i];
      if a.previousExpiresAt != expiry || a.at < startedAt || (a.expiredOnly && a.at < expiry) {
        BrokenChain(startedAt, initial, amendments, i + 1);
        return false;
      }
      expiry := a.at + a.duration;
    }
    assert amendments[..|amendments|] == amendments;
    return v.expiresAt.value == expiry;
  }

  lemma {:induction false} BrokenChain(startedAt: int, initial: int, list: seq<Amendment>, i: nat)
    requires i <= |list| && Expiry(startedAt, initial, list[..i]).None?
    ensures Expiry(startedAt, initial, list).None?
    decreases |list|
  {
    if i < |list| {
      var front := list[..|list| - 1];
      assert front[..i] == list[..i];
      BrokenChain(startedAt, initial, front, i);
    } else {
      assert list[..i] == list;
    }
  }

  // ---------------------------------------------------------------- what an accepted status means

  lemma AtMostIsPreorder()
    ensures TotalPreorder(AtMost)
  {}

  lemma {:induction false} ChainPrefix(startedAt: int, initial: int, list: seq<Amendment>, i: nat)
    requires Expiry(startedAt, initial, list).Some? && i <= |list|
    ensures Expiry(startedAt, initial, list[..i]).Some?
    decreases |list|
  {
    if i < |list| {
      var front := list[..|list| - 1];
      assert front[..i] == list[..i];
      ChainPrefix(startedAt, initial, front, i);
    } else {
      assert list[..i] == list;
    }
  }

  /** The end of the window before amendment i: the first window's, or that of the amendment before it. */
  function EndBefore(initial: int, list: seq<Amendment>, i: nat): int
    requires i <= |list|
  {
    if i == 0 then initial else list[i - 1].at + list[i - 1].duration
  }

  /** Each amendment names the end of the window before it, none lies before the start, and a renewal waits for that end. */
  ghost predicate Chained(start: int, initial: int, list: seq<Amendment>) {
    forall i :: 0 <= i < |list| ==>
      && list[i].previousExpiresAt == EndBefore(initial, list, i)
      && list[i].at >= start
      && (list[i].expiredOnly ==> list[i].at >= EndBefore(initial, list, i))
  }

  lemma {:induction false} ExpiryExact(start: int, initial: int, list: seq<Amendment>)
    ensures Expiry(start, initial, list) == if Chained(start, initial, list) then Some(EndBefore(initial, list, |list|)) else None
  {
    if list != [] {
      var front, n := list[..|list| - 1], |list| - 1;
      ExpiryExact(start, initial, front);
      assert forall i :: 0 <= i <= n ==> EndBefore(initial, front, i) == EndBefore(initial, list, i);
    }
  }

  /** In order of time, the same as the listed ones, and those of one moment in the order of the list. */
  ghost predicate InTimeOrder(list: seq<Amendment>, listed: seq<Amendment>) {
    && Sorted(list, AtMost) && multiset(list) == multiset(listed)
    && forall k: Amendment :: Tied(list, AtMost, k) == Tied(listed, AtMost, k)
  }

  /**
   * A status is accepted exactly when an approved one has no window at all, and any other one has a start and an expiry, no
   * additional renewals without a first one, renewals in order of time, and amendments that, put in order of time,
   * are chained from the start to the expiry.
   */
  lemma AcceptedExactly(v: Status)
    ensures InTimeOrder(Amendments(v), Listed(v))
    ensures WindowsAccepted(v) <==>
      if v.approved then
        v.startedAt.None? && v.expiresAt.None? && v.roleCalls == 0 && v.windowRenewal.None? && v.additionalWindowRenewals.None? &&
        v.qaRecovery.None?
      else
        && v.startedAt.Some? && v.expiresAt.Some? && (v.additionalWindowRenewals.Some? ==> v.windowRenewal.Some?)
        && (forall i, j :: 0 <= i < j < |Windows(v)| ==> Windows(v)[i].renewedAt <= Windows(v)[j].renewedAt)
        && var start := v.startedAt.value; var initial := start + v.durationMilliseconds;
           Chained(start, initial, Amendments(v)) && v.expiresAt.value == EndBefore(initial, Amendments(v), |Amendments(v)|)
  {
    hide Windows, Listed, Sort, Chained;
    AtMostIsPreorder();
    SortedAmendments(v);
    forall k: Amendment ensures Tied(Amendments(v), AtMost, k) == Tied(Listed(v), AtMost, k) {
      SortStable(Listed(v), AtMost, k);
    }
    OrderExact(Windows(v));
    if v.startedAt.Some? {
      ExpiryExact(v.startedAt.value, v.startedAt.value + v.durationMilliseconds, Amendments(v));
    }
  }

  lemma {:induction false} OrderExact(windows: seq<Window>)
    ensures InRenewalOrder(windows) <==> forall i, j :: 0 <= i < j < |windows| ==> windows[i].renewedAt <= windows[j].renewedAt
  {
    if windows != [] {
      var front, n := windows[..|windows| - 1], |windows| - 1;
      OrderExact(front);
      assert forall i :: 0 <= i < n ==> front[i] == windows[i];
      if InRenewalOrder(windows) {
        forall i, j | 0 <= i < j < |windows| ensures windows[i].renewedAt <= windows[j].renewedAt {
          if j == n && i < n - 1 { assert front[i].renewedAt <= front[n - 1].renewedAt; }
        }
      }
    }
  }

  /**
   * The amendments of an accepted status are a time-ordered permutation of the listed ones, each chained to the expiry
   * computed so far and no earlier than the start, and each renewal no earlier than that expiry.
   */
  lemma AcceptedIsChained(v: Status)
    requires WindowsAccepted(v) && !v.approved
    ensures Sorted(Amendments(v), AtMost) && multiset(Amendments(v)) == multiset(Listed(v))
    ensures var start := v.startedAt.value; var initial := start + v.durationMilliseconds; var list := Amendments(v);
      forall i :: 0 <= i < |list| ==>
        Expiry(start, initial, list[..i]) == Some(list[i].previousExpiresAt) && list[i].at >= start &&
        (list[i].expiredOnly ==> list[i].at >= list[i].previousExpiresAt)
  {
    hide Windows, Listed;
    SortedAmendments(v);
    hide Amendments;
    ChainLinks(v.startedAt.value, v.startedAt.value + v.durationMilliseconds, Amendments(v));
  }

  lemma SortedAmendments(v: Status)
    ensures Sorted(Amendments(v), AtMost) && multiset(Amendments(v)) == multiset(Listed(v))
  {
    AtMostIsPreorder();
    SortSorted(Listed(v), AtMost);
  }

  lemma ChainLinks(start: int, initial: int, list: seq<Amendment>)
    requires Expiry(start, initial, list).Some?
    ensures forall i :: 0 <= i < |list| ==>
      Expiry(start, initial, list[..i]) == Some(list[i].previousExpiresAt) && list[i].at >= start &&
      (list[i].expiredOnly ==> list[i].at >= list[i].previousExpiresAt)
  {
    forall i | 0 <= i < |list|
      ensures Expiry(start, initial, list[..i]) == Some(list[i].previousExpiresAt) && list[i].at >= start
      ensures list[i].expiredOnly ==> list[i].at >= list[i].previousExpiresAt
    {
      ChainPrefix(start, initial, list, i + 1);
      assert list[..i + 1][..i] == list[..i];
    }
  }

  // ---------------------------------------------------------------- authorised time

  function Interval(from: int, length: nat): (r: set<int>)
    ensures |r| == length && forall t :: t in r <==> from <= t < from + length
  {
    if length == 0 then {} else Interval(from, length - 1) + {from + length - 1}
  }

  /** The milliseconds during which the task was authorised to run. */
  ghost function Authorised(startedAt: int, initial: nat, list: seq<Amendment>): set<int> {
    if list == [] then Interval(startedAt, initial)
    else Authorised(startedAt, initial, list[..|list| - 1]) + Interval(list[|list| - 1].at, list[|list| - 1].duration)
  }

  function Durations(initial: nat, list: seq<Amendment>): nat {
    if list == [] then initial else Durations(initial, list[..|list| - 1]) + list[|list| - 1].duration
  }

  lemma UnionSize(a: set<int>, b: set<int>)
    ensures |a + b| <= |a| + |b|
    ensures a !! b ==> |a + b| == |a| + |b|
  {
    assert a + b == a + (b - a);
    assert |b - a| <= |b|;
  }

  /** The union of the windows is never longer than all the durations together. */
  lemma {:induction false} AuthorisedTimeIsBounded(startedAt: int, initial: nat, list: seq<Amendment>)
    ensures |Authorised(startedAt, initial, list)| <= Durations(initial, list)
  {
    if list != [] {
      var last := list[|list| - 1];
      AuthorisedTimeIsBounded(startedAt, initial, list[..|list| - 1]);
      UnionSize(Authorised(startedAt, initial, list[..|list| - 1]), Interval(last.at, last.duration));
    }
  }

  /** Without a QA recovery the windows never overlap: they end in order, and together last exactly the durations. */
  lemma {:induction false} RenewalsDoNotOverlap(startedAt: int, initial: nat, list: seq<Amendment>)
    requires Expiry(startedAt, startedAt + initial, list).Some? && forall a :: a in list ==> a.expiredOnly
    ensures |Authorised(startedAt, initial, list)| == Durations(initial, list)
    ensures forall t :: t in Authorised(startedAt, initial, list) ==> t < Expiry(startedAt, startedAt + initial, list).value
  {
    if list != [] {
      var front, last := list[..|list| - 1], list[|list| - 1];
      RenewalsDoNotOverlap(startedAt, initial, front);
      assert last in list;
      UnionSize(Authorised(startedAt, initial, front), Interval(last.at, last.duration));
    }
  }

  /** The authorised time of an accepted status, counted over its own amendments. */
  lemma AcceptedTimeIsBounded(v: Status)
    requires WindowsAccepted(v) && !v.approved
    ensures |Authorised(v.startedAt.value, v.durationMilliseconds, Amendments(v))| <= Durations(v.durationMilliseconds, Amendments(v))
    ensures v.qaRecovery.None? ==>
      |Authorised(v.startedAt.value, v.durationMilliseconds, Amendments(v))| == Durations(v.durationMilliseconds, Amendments(v))
  {
    hide Amendments, Authorised, Durations, Windows;
    AuthorisedTimeIsBounded(v.startedAt.value, v.durationMilliseconds, Amendments(v));
    if v.qaRecovery.None? {
      SortedAmendments(v);
      forall a | a in Amendments(v) ensures a.expiredOnly {
        assert a in multiset(Amendments(v)) && a in multiset(Listed(v));
      }
      RenewalsDoNotOverlap(v.startedAt.value, v.durationMilliseconds, Amendments(v));
    }
  }

  // ---------------------------------------------------------------- renewing

  /** No amendment moves the expiry back. */
  ghost predicate NeverShrinks(startedAt: int, initial: int, list: seq<Amendment>) {
    forall i, j :: 0 <= i <= j <= |list| ==> NoLater(Expiry(startedAt, initial, list[..i]), Expiry(startedAt, initial, list[..j]))
  }

  predicate NoLater(before: Option<int>, after: Option<int>) { before.Some? && after.Some? && before.value <= after.value }

  lemma {:induction false} KeepingEndsNeverShrinks(startedAt: int, initial: int, list: seq<Amendment>)
    requires Expiry(startedAt, initial, list).Some?
    requires forall a :: a in list ==> Keeps(a)
    ensures NeverShrinks(startedAt, initial, list)
  {
    if list != [] {
      var n := |list| - 1;
      var front := list[..n];
      KeepingEndsNeverShrinks(startedAt, initial, front);
      assert list[..n + 1] == list && front[..n] == front;
      assert list[n] in list;
      forall i, j | 0 <= i <= j <= |list|
        ensures NoLater(Expiry(startedAt, initial, list[..i]), Expiry(startedAt, initial, list[..j]))
      {
        if i <= n {
          assert front[..i] == list[..i];
          assert NoLater(Expiry(startedAt, initial, front[..i]), Expiry(startedAt, initial, front[..n]));
        }
        if j <= n {
          assert front[..j] == list[..j];
        }
      }
    }
  }

  /** The expiries of an accepted status never move back exactly when the QA recovery ends no earlier than what it replaces. */
  lemma ExpiryIsMonotone(v: Status)
    requires WindowsAccepted(v) && !v.approved
    ensures NeverShrinks(v.startedAt.value, v.startedAt.value + v.durationMilliseconds, Amendments(v)) <==>
      (v.qaRecovery.Some? ==>
         v.qaRecovery.value.authorizedAt + v.qaRecovery.value.durationMilliseconds >= v.qaRecovery.value.previousExpiresAt)
  {
    hide Amendments, Listed, Expiry, NeverShrinks, InRenewalOrder;
    var start := v.startedAt.value;
    var initial := start + v.durationMilliseconds;
    var list := Amendments(v);
    SortedAmendments(v);
    forall a ensures a in list <==> a in Listed(v) {
      assert a in multiset(list) <==> a in multiset(Listed(v));
    }
    OneRecovery(v);
    if v.qaRecovery.Some? && NeverShrinks(start, initial, list) {
      ShrinksAt(start, initial, list, Recovery(v.qaRecovery.value));
    }
    if v.qaRecovery.Some? ==> Keeps(Recovery(v.qaRecovery.value)) {
      forall a | a in list ensures Keeps(a) {
        if a.expiredOnly { RenewalKeeps(start, initial, list, a); }
      }
      KeepingEndsNeverShrinks(start, initial, list);
    }
  }

  predicate Keeps(a: Amendment) { a.at + a.duration >= a.previousExpiresAt }

  lemma OneRecovery(v: Status)
    ensures forall a :: a in Listed(v) && !a.expiredOnly ==> v.qaRecovery.Some? && a == Recovery(v.qaRecovery.value)
    ensures v.qaRecovery.Some? ==> Recovery(v.qaRecovery.value) in Listed(v)
  {
    hide Windows;
    if v.qaRecovery.Some? {
      assert Listed(v)[|Windows(v)|] == Recovery(v.qaRecovery.value);
    }
  }

  lemma RenewalKeeps(startedAt: int, initial: int, list: seq<Amendment>, a: Amendment)
    requires Expiry(startedAt, initial, list).Some? && a in list && a.expiredOnly
    ensures Keeps(a)
  {
    ChainLinks(startedAt, initial, list);
  }

  lemma ShrinksAt(startedAt: int, initial: int, list: seq<Amendment>, a: Amendment)
    requires Expiry(startedAt, initial, list).Some? && a in list && NeverShrinks(startedAt, initial, list)
    ensures Keeps(a)
  {
    var i :| 0 <= i < |list| && list[i] == a;
    LinkEnds(startedAt, initial, list, i);
    assert NoLater(Expiry(startedAt, initial, list[..i]), Expiry(startedAt, initial, list[..i + 1]));
  }

  lemma LinkEnds(startedAt: int, initial: int, list: seq<Amendment>, i: nat)
    requires Expiry(startedAt, initial, list).Some? && i < |list|
    ensures Expiry(startedAt, initial, list[..i]) == Some(list[i].previousExpiresAt)
    ensures Expiry(startedAt, initial, list[..i + 1]) == Some(list[i].at + list[i].duration)
  {
    ChainPrefix(startedAt, initial, list, i + 1);
    assert list[..i + 1][..i] == list[..i];
  }

  /** A QA recovery can shorten the window it replaces: three hours granted one hour into a day. */
  lemma QaRecoveryCanShorten()
    ensures var v := Status(false, Some(0), Some(14_400_000), 86_400_000, 0, None, None,
                            Some(QaRecovery(86_400_000, 3_600_000, 10_800_000)));
      WellTyped(v) && WindowsAccepted(v) && v.expiresAt.value < v.startedAt.value + v.durationMilliseconds
  {
    var a := Amendment(3_600_000, 86_400_000, 10_800_000, false);
    var v := Status(false, Some(0), Some(14_400_000), 86_400_000, 0, None, None,
                    Some(QaRecovery(86_400_000, 3_600_000, 10_800_000)));
    assert Listed(v) == [a];
    assert Sort([a], AtMost) == [a];
    assert Expiry(0, 86_400_000, [a]) == Some(14_400_000);
  }

  function Renew(v: Status, w: Window): Status {
    var renewed := v.(expiresAt := Some(w.renewedAt + w.durationMilliseconds));
    if v.windowRenewal.None? then renewed.(windowRenewal := Some(w))
    else
      renewed.(additionalWindowRenewals :=
        Some((if v.additionalWindowRenewals.Some? then v.additionalWindowRenewals.value else []) + [w]))
  }

  /** Every amendment lies before the expiry it leads to. */
  lemma {:induction false} AmendmentsPrecedeExpiry(startedAt: int, initial: int, list: seq<Amendment>)
    requires Expiry(startedAt, initial, list).Some? && Sorted(list, AtMost) && forall a :: a in list ==> a.duration >= 1
    ensures forall a :: a in list ==> a.at < Expiry(startedAt, initial, list).value
  {
    if list != [] {
      var last := list[|list| - 1];
      assert last in list;
      forall a | a in list ensures a.at < last.at + last.duration {
        var i :| 0 <= i < |list| && list[i] == a;
        if i < |list| - 1 { assert AtMost(list[i], list[|list| - 1]); }
      }
    }
  }

  /** Insert keeps its place under a later element. */
  lemma LaterStaysLast(s: seq<Amendment>, x: Amendment, w: Amendment)
    requires x.at < w.at
    ensures Insert(s + [w], x, AtMost) == Insert(s, x, AtMost) + [w]
  {
    assert (s + [w])[..|s|] == s;
  }

  lemma SortAppend(s: seq<Amendment>, x: Amendment)
    ensures Sort(s + [x], AtMost) == Insert(Sort(s, AtMost), x, AtMost)
  {
    assert (s + [x])[..|s|] == s;
  }

  lemma InsertLargest(s: seq<Amendment>, w: Amendment)
    requires forall a :: a in s ==> a.at <= w.at
    ensures Insert(s, w, AtMost) == s + [w]
  {
    if s == [] {
      assert [] + [w] == [w];
    }
  }

  lemma LaterThanSorted(list: seq<Amendment>, w: Amendment)
    requires forall a :: a in list ==> a.at < w.at
    ensures Sort(list + [w], AtMost) == Sort(list, AtMost) + [w]
  {
    hide Sort, Insert;
    forall a | a in Sort(list, AtMost) ensures a.at <= w.at {
      assert a in multiset(Sort(list, AtMost)) && a in multiset(list);
    }
    SortAppend(list, w);
    InsertLargest(Sort(list, AtMost), w);
  }

  lemma LaterThanSortedBeforeLast(list: seq<Amendment>, w: Amendment, last: Amendment)
    requires last.at < w.at && forall a :: a in list ==> a.at < w.at
    ensures Sort(list + [w] + [last], AtMost) == Sort(list + [last], AtMost) + [w]
  {
    hide Sort, Insert;
    LaterThanSorted(list, w);
    SortAppend(list, last);
    SortAppend(list + [w], last);
    LaterStaysLast(Sort(list, AtMost), last, w);
  }

  lemma RenewedList(v: Status, w: Window)
    requires !(v.additionalWindowRenewals.Some? && v.windowRenewal.None?)
    ensures Windows(Renew(v, w)) == Windows(v) + [w]
    ensures Renewals(Windows(Renew(v, w))) == Renewals(Windows(v)) + [Renewal(w)]
  {
    assert Windows(Renew(v, w)) == Windows(v) + [w];
  }

  /** A renewal later than every listed amendment is the last of the sorted ones. */
  lemma RenewalSortsLast(v: Status, w: Window)
    requires !(v.additionalWindowRenewals.Some? && v.windowRenewal.None?)
    requires forall a :: a in Listed(v) ==> a.at < w.renewedAt
    ensures Amendments(Renew(v, w)) == Amendments(v) + [Renewal(w)]
  {
    hide Sort, Windows, Renew;
    RenewedList(v, w);
    var renewals := Renewals(Windows(v));
    assert Renew(v, w).qaRecovery == v.qaRecovery by { RenewKeepsQa(v, w); }
    forall a | a in renewals ensures a.at < Renewal(w).at {
      assert a in Listed(v);
    }
    if v.qaRecovery.Some? {
      var qa := Listed(v)[|renewals|];
      assert qa in Listed(v);
      LaterThanSortedBeforeLast(renewals, Renewal(w), qa);
    } else {
      assert Listed(v) == renewals && Listed(Renew(v, w)) == renewals + [Renewal(w)];
      LaterThanSorted(renewals, Renewal(w));
    }
  }

  lemma RenewKeepsQa(v: Status, w: Window)
    ensures Renew(v, w).qaRecovery == v.qaRecovery
  {}

  lemma ListedDurations(v: Status)
    requires WellTyped(v)
    ensures forall a :: a in Listed(v) ==> a.duration >= 1
  {
    forall a | a in Listed(v) ensures a.duration >= 1 {
      var i :| 0 <= i < |Listed(v)| && Listed(v)[i] == a;
      if i < |Windows(v)| {
        assert Windows(v)[i] in Windows(v);
      }
    }
  }

  /** Renewing an accepted window at or after its expiry, chained to it, is accepted with the new expiry. */
  lemma RenewalIsAccepted(v: Status, w: Window)
    requires WellTyped(v) && WindowsAccepted(v) && !v.approved
    requires w.previousExpiresAt == v.expiresAt.value && w.renewedAt >= v.expiresAt.value && w.durationMilliseconds >= 1
    ensures WellTyped(Renew(v, w)) && WindowsAccepted(Renew(v, w))
    ensures Renew(v, w).expiresAt == Some(w.renewedAt + w.durationMilliseconds)
  {
    hide Amendments, Listed, Expiry, InRenewalOrder;
    var start := v.startedAt.value;
    var initial := start + v.durationMilliseconds;
    var list := Amendments(v);
    SortedAmendments(v);
    ListedDurations(v);
    forall a ensures a in list <==> a in Listed(v) {
      assert a in multiset(list) <==> a in multiset(Listed(v));
    }
    AmendmentsPrecedeExpiry(start, initial, list);
    StartBeforeExpiry(start, initial, list);
    RenewalSortsLast(v, w);
    RenewedInOrder(v, w);
    OneMoreLink(start, initial, list, Renewal(w));
  }

  lemma OneMoreLink(startedAt: int, initial: int, list: seq<Amendment>, a: Amendment)
    requires Expiry(startedAt, initial, list) == Some(a.previousExpiresAt)
    requires a.at >= startedAt && a.at >= a.previousExpiresAt
    ensures Expiry(startedAt, initial, list + [a]) == Some(a.at + a.duration)
  {
    assert (list + [a])[..|list|] == list;
  }

  lemma StartBeforeExpiry(startedAt: int, initial: int, list: seq<Amendment>)
    requires Expiry(startedAt, initial, list).Some? && startedAt <= initial
    ensures startedAt <= Expiry(startedAt, initial, list).value
  {}

  lemma RenewedInOrder(v: Status, w: Window)
    requires InRenewalOrder(Windows(v)) && !(v.additionalWindowRenewals.Some? && v.windowRenewal.None?)
    requires forall a :: a in Listed(v) ==> a.at < w.renewedAt
    ensures InRenewalOrder(Windows(Renew(v, w)))
  {
    var windows := Windows(v);
    assert Windows(Renew(v, w)) == windows + [w];
    if windows != [] {
      assert Listed(v)[|windows| - 1] == Renewal(windows[|windows| - 1]);
      assert Listed(v)[|windows| - 1] in Listed(v);
    }
  }
}
