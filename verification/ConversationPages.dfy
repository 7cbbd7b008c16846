/**
  Cursor pagination of a message log: a page holds the last messages created
  strictly before the cursor, and the next cursor is the time of its first message.
 */
module ConversationPages {
  import opened Wrappers
  import opened ConversationStore

  const DEFAULT_LIMIT := 40
  const GREATEST_LIMIT := 1000

  datatype Page = Page(messages: Log, hasMore: bool, nextCursor: Option<int>)

  /** A number of the caller's: any limit at all may be asked for. */
  datatype Number = NaN | Infinity | NegativeInfinity | Finite(value: real)

  /**
    What `slice(-limit)` keeps, for `limit = Math.max(1, Math.min(wanted, 1000))`: fractions are
    cut off, and with no number at all the whole of a log of `total` messages is kept.
   */
  function PageSize(limit: Option<Number>, total: nat): (n: nat)
    ensures n >= 1
    ensures limit != Some(NaN) ==> n <= GREATEST_LIMIT
  {
    match limit.GetOr(Finite(DEFAULT_LIMIT as real))
    case NaN => if total == 0 then 1 else total
    case Infinity => GREATEST_LIMIT
    case NegativeInfinity => 1
    case Finite(value) =>
      if value >= GREATEST_LIMIT as real then GREATEST_LIMIT else if value < 1.0 then 1 else value.Floor
  }

  predicate Visible(message: ConversationMessage, before: Option<int>) {
    before.Some? ==> message.createdAt < before.value
  }

  function Earlier(log: Log, before: Option<int>): (visible: Log)
    ensures |visible| <= |log|
    ensures forall m :: m in visible ==> Visible(m, before)
  {
    if log == [] then []
    else
      var init := Earlier(log[..|log| - 1], before);
      if Visible(log[|log| - 1], before) then init + [log[|log| - 1]] else init
  }

  function Last(log: Log, n: nat): (tail: Log)
    ensures |tail| <= n && |tail| <= |log| && log[|log| - |tail|..] == tail
    ensures |tail| == n || |tail| == |log|
  {
    if |log| <= n then log else log[|log| - n..]
  }

  function PageOf(log: Log, limit: Option<Number>, before: Option<int>): (page: Page)
    ensures page.hasMore ==> page.nextCursor.Some?
  {
    var all := Earlier(log, before);
    var page := Last(all, PageSize(limit, |log|));
    var hasMore := |all| > |page|;
    Page(page, hasMore, if hasMore then Some(page[0].createdAt) else None)
  }

  // ----- what a page holds

  /** The positions of the messages created before the cursor; of all messages, when there is none. */
  function VisiblePositions(log: Log, before: Option<int>): (positions: seq<nat>)
    ensures forall j :: 0 <= j < |positions| ==> positions[j] < |log|
    ensures forall i, j :: 0 <= i < j < |positions| ==> positions[i] < positions[j]
    ensures forall i :: 0 <= i < |log| ==> (i in positions <==> before.None? || log[i].createdAt < before.value)
  {
    if log == [] then []
    else
      var n := |log| - 1;
      VisiblePositions(log[..n], before) + if before.None? || log[n].createdAt < before.value then [n] else []
  }

  /** The page holds the last `k` of the messages at the positions, or all of them, and leads on to those before them. */
  ghost predicate HoldsAt(page: Page, log: Log, positions: seq<nat>, k: nat) {
    var v := |positions|;
    var from := if v > k then v - k else 0;
    && |page.messages| == v - from
    && (forall j :: 0 <= j < v - from ==> positions[from + j] < |log| && page.messages[j] == log[positions[from + j]])
    && (page.hasMore <==> v > k)
    && page.nextCursor == if v > k > 0 && positions[v - k] < |log| then Some(log[positions[v - k]].createdAt) else None
  }

  ghost predicate Holds(page: Page, log: Log, before: Option<int>, k: nat) {
    HoldsAt(page, log, VisiblePositions(log, before), k)
  }

  /** How many messages a page has for each limit that may be asked for. */
  ghost predicate HoldsFor(page: Page, log: Log, before: Option<int>, limit: Option<Number>) {
    match limit
    case None => Holds(page, log, before, 40)
    case Some(NaN) => Holds(page, log, before, |VisiblePositions(log, before)|)
    case Some(Infinity) => Holds(page, log, before, 1000)
    case Some(NegativeInfinity) => Holds(page, log, before, 1)
    case Some(Finite(x)) =>
      && (x < 1.0 ==> Holds(page, log, before, 1))
      && (x >= 1000.0 ==> Holds(page, log, before, 1000))
      && forall k: nat :: 1 <= k < 1000 && k as real <= x < (k + 1) as real ==> Holds(page, log, before, k)
  }

  lemma {:induction false} EarlierIsVisible(log: Log, before: Option<int>)
    ensures |Earlier(log, before)| == |VisiblePositions(log, before)|
    ensures forall j :: 0 <= j < |Earlier(log, before)| ==> Earlier(log, before)[j] == log[VisiblePositions(log, before)[j]]
    decreases |log|
  {
    if log != [] {
      EarlierIsVisible(log[..|log| - 1], before);
    }
  }

  lemma CutHolds(log: Log, all: Log, positions: seq<nat>, k: nat, page: Page)
    requires |all| == |positions| && forall j :: 0 <= j < |all| ==> positions[j] < |log| && all[j] == log[positions[j]]
    requires k > 0 || all == []
    requires page.messages == Last(all, k) && page.hasMore == (|all| > |page.messages|)
    requires page.nextCursor == if page.hasMore then Some(page.messages[0].createdAt) else None
    ensures HoldsAt(page, log, positions, k)
  {
    var from := if |all| > k then |all| - k else 0;
    assert page.messages == all[from..];
  }

  lemma HoldsPageSize(log: Log, limit: Option<Number>, before: Option<int>)
    ensures Holds(PageOf(log, limit, before), log, before, PageSize(limit, |log|))
  {
    EarlierIsVisible(log, before);
    CutHolds(log, Earlier(log, before), VisiblePositions(log, before), PageSize(limit, |log|), PageOf(log, limit, before));
  }

  /** A page of more than is visible holds all that is visible. */
  lemma HoldsAllVisible(page: Page, log: Log, before: Option<int>, k: nat)
    requires Holds(page, log, before, k) && k >= |VisiblePositions(log, before)|
    ensures Holds(page, log, before, |VisiblePositions(log, before)|)
  {
  }

  lemma SizeOfFraction(x: real, total: nat, k: nat)
    requires 1 <= k < 1000 && k as real <= x < (k + 1) as real
    ensures PageSize(Some(Finite(x)), total) == k
  {
  }

  /** Every page holds what its limit asks for. */
  lemma {:induction false} PageHolds(log: Log, limit: Option<Number>, before: Option<int>)
    ensures HoldsFor(PageOf(log, limit, before), log, before, limit)
  {
    var page := PageOf(log, limit, before);
    HoldsPageSize(log, limit, before);
    if limit == Some(NaN) {
      EarlierIsVisible(log, before);
      HoldsAllVisible(page, log, before, PageSize(limit, |log|));
    } else if limit.Some? && limit.value.Finite? {
      forall k: nat | 1 <= k < 1000 && k as real <= limit.value.value < (k + 1) as real ensures Holds(page, log, before, k) {
        SizeOfFraction(limit.value.value, |log|, k);
      }
    }
  }

  method FilterEarlier(log: Log, before: Option<int>) returns (all: Log)
    ensures all == Earlier(log, before)
  {
    all := [];
    for i := 0 to |log|
      invariant all == Earlier(log[..i], before)
    {
      assert log[..i + 1][..i] == log[..i];
      if Visible(log[i], before) {
        all := all + [log[i]];
      }
    }
    assert log[..|log|] == log;
  }

  method ListMessagesPage(
      store: InMemoryConversationStore, organizationId: string, id: nat, limit: Option<Number>, before: Option<int>)
    returns (page: Page)
    requires store.Valid()
    ensures page == if store.View().Has(organizationId, id) then PageOf(store.messages[id], limit, before)
                    else Page([], false, None)
    ensures store.View().Has(organizationId, id) ==> HoldsFor(page, store.messages[id], before, limit)
  {
    var record := store.Get(organizationId, id);
    if record.None? {
      return Page([], false, None);
    }
    var log := store.messages[id];
    var all := FilterEarlier(log, before);
    var messages := Last(all, PageSize(limit, |log|));
    var hasMore := |all| > |messages|;
    page := Page(messages, hasMore, if hasMore then Some(messages[0].createdAt) else None);
    PageHolds(log, limit, before);
  }

  // ----- the walk terminates, whatever the log

  lemma {:induction false} EarlierCursorSeesLess(log: Log, cursor: int, before: Option<int>)
    requires before.Some? ==> cursor <= before.value
    ensures Earlier(Earlier(log, before), Some(cursor)) == Earlier(log, Some(cursor))
    decreases |log|
  {
    if log != [] {
      EarlierCursorSeesLess(log[..|log| - 1], cursor, before);
      var init := Earlier(log[..|log| - 1], before);
      assert (init + [log[|log| - 1]])[..|init|] == init;
    }
  }

  lemma {:induction false} SomeInvisible(log: Log, before: Option<int>, m: ConversationMessage)
    requires m in log && !Visible(m, before)
    ensures |Earlier(log, before)| < |log|
    decreases |log|
  {
    if m != log[|log| - 1] {
      SomeInvisible(log[..|log| - 1], before, m);
    }
  }

  lemma NextPageSeesLess(log: Log, limit: Option<Number>, before: Option<int>)
    requires PageOf(log, limit, before).hasMore
    ensures |Earlier(log, PageOf(log, limit, before).nextCursor)| < |Earlier(log, before)|
  {
    var all := Earlier(log, before);
    var page := PageOf(log, limit, before);
    var first := page.messages[0];
    assert first == all[|all| - |page.messages|];
    SomeInvisible(all, Some(first.createdAt), first);
    EarlierCursorSeesLess(log, first.createdAt, before);
  }

  /** The pages met by following `nextCursor` until `hasMore` is false, newest page first. */
  function Walk(log: Log, limit: Option<Number>, before: Option<int>): (pages: seq<Log>)
    decreases |Earlier(log, before)|
  {
    var page := PageOf(log, limit, before);
    if page.hasMore then
      NextPageSeesLess(log, limit, before);
      [page.messages] + Walk(log, limit, page.nextCursor)
    else [page.messages]
  }

  lemma {:induction false} AtMostOnePageEach(log: Log, limit: Option<Number>, before: Option<int>)
    ensures 1 <= |Walk(log, limit, before)| <= |Earlier(log, before)| + 1
    decreases |Earlier(log, before)|
  {
    if PageOf(log, limit, before).hasMore {
      NextPageSeesLess(log, limit, before);
      AtMostOnePageEach(log, limit, PageOf(log, limit, before).nextCursor);
    }
  }

  /** The pages put together with the oldest first. */
  function OldestFirst(pages: seq<Log>): Log {
    if pages == [] then [] else OldestFirst(pages[1..]) + pages[0]
  }

  // ----- logs in order of time

  predicate InOrder(log: Log) {
    forall i, j :: 0 <= i < j < |log| ==> log[i].createdAt <= log[j].createdAt
  }

  predicate StrictlyInOrder(log: Log) {
    forall i, j :: 0 <= i < j < |log| ==> log[i].createdAt < log[j].createdAt
  }

  lemma {:induction false} EarlierIsPrefix(log: Log, before: Option<int>)
    requires InOrder(log)
    ensures Earlier(log, before) <= log
    ensures |Earlier(log, before)| < |log| ==> !Visible(log[|Earlier(log, before)|], before)
    decreases |log|
  {
    if log != [] {
      EarlierIsPrefix(log[..|log| - 1], before);
    }
  }

  lemma OlderAreBefore(log: Log, n: nat)
    requires InOrder(log) && n < |log|
    ensures var m := |Earlier(log, Some(log[n].createdAt))|;
      m <= n && (m == n <==> n == 0 || log[n - 1].createdAt < log[n].createdAt)
  {
    var before := Some(log[n].createdAt);
    EarlierIsPrefix(log, before);
    var older := Earlier(log, before);
    if |older| < n {
      assert !Visible(log[|older|], before);
    }
    assert |older| == n && n > 0 ==> older[n - 1] in older;
  }

  /** How many messages are older than the message at `n`. */
  function OlderThan(log: Log, n: nat): (m: nat)
    requires InOrder(log) && n < |log|
    ensures m <= n
    ensures m == n <==> n == 0 || log[n - 1].createdAt < log[n].createdAt
  {
    OlderAreBefore(log, n);
    |Earlier(log, Some(log[n].createdAt))|
  }

  function Positions(from: nat, to: nat): (positions: seq<nat>)
    requires from <= to
  {
    seq(to - from, i requires 0 <= i < to - from => from + i)
  }

  /** The positions of the messages a walk shows, oldest first, when `n` are visible. */
  function Shown(log: Log, limit: nat, n: nat): seq<nat>
    requires InOrder(log) && n <= |log| && limit >= 1
    decreases n
  {
    if n <= limit then Positions(0, n)
    else Shown(log, limit, OlderThan(log, n - limit)) + Positions(n - limit, n)
  }

  /** Positions in increasing order: no message is shown twice, and none out of turn. */
  lemma {:induction false} ShownOnce(log: Log, limit: nat, n: nat)
    requires InOrder(log) && n <= |log| && limit >= 1
    ensures forall k :: 0 <= k < |Shown(log, limit, n)| ==> Shown(log, limit, n)[k] < n
    ensures forall j, k :: 0 <= j < k < |Shown(log, limit, n)| ==> Shown(log, limit, n)[j] < Shown(log, limit, n)[k]
    decreases n
  {
    if n > limit {
      ShownOnce(log, limit, OlderThan(log, n - limit));
    }
  }

  lemma {:induction false} PageIsSlice(log: Log, limit: Option<Number>, before: Option<int>)
    requires InOrder(log)
    ensures var n, size, page := |Earlier(log, before)|, PageSize(limit, |log|), PageOf(log, limit, before);
      && n <= |log| && (page.hasMore <==> n > size)
      && page.messages == log[if n > size then n - size else 0..n]
      && (page.hasMore ==> page.nextCursor == Some(log[n - size].createdAt))
  {
    EarlierIsPrefix(log, before);
    var n := |Earlier(log, before)|;
    assert Earlier(log, before) == log[..n];
  }

  lemma {:induction false} FirstPageComesLast(log: Log, limit: Option<Number>, before: Option<int>)
    ensures var page := PageOf(log, limit, before);
      OldestFirst(Walk(log, limit, before)) ==
      (if page.hasMore then OldestFirst(Walk(log, limit, page.nextCursor)) else []) + page.messages
  {
    var page, pages := PageOf(log, limit, before), Walk(log, limit, before);
    if page.hasMore {
      NextPageSeesLess(log, limit, before);
      assert pages[1..] == Walk(log, limit, page.nextCursor);
    } else {
      assert pages[1..] == [];
    }
  }

  /** The last `limit` of the first `n` messages, after what is shown of those older than them. */
  function ShownOf(log: Log, limit: nat, n: nat): Log
    requires InOrder(log) && n <= |log| && limit >= 1
    decreases n
  {
    if n <= limit then log[..n]
    else ShownOf(log, limit, OlderThan(log, n - limit)) + log[n - limit..n]
  }

  /** `text` is what the log holds at the positions. */
  ghost predicate Reads(log: Log, positions: seq<nat>, text: Log) {
    |text| == |positions| && forall k :: 0 <= k < |text| ==> positions[k] < |log| && text[k] == log[positions[k]]
  }

  lemma {:induction false} ShownIsRead(log: Log, limit: nat, n: nat)
    requires InOrder(log) && n <= |log| && limit >= 1
    ensures Reads(log, Shown(log, limit, n), ShownOf(log, limit, n))
    decreases n
  {
    if n > limit {
      ShownIsRead(log, limit, OlderThan(log, n - limit));
    }
  }

  lemma {:induction false} WalkIsShown(log: Log, limit: Option<Number>, before: Option<int>)
    requires InOrder(log)
    ensures |Earlier(log, before)| <= |log|
    ensures OldestFirst(Walk(log, limit, before)) == ShownOf(log, PageSize(limit, |log|), |Earlier(log, before)|)
    decreases |Earlier(log, before)|
  {
    var page := PageOf(log, limit, before);
    PageIsSlice(log, limit, before);
    FirstPageComesLast(log, limit, before);
    if page.hasMore {
      NextPageSeesLess(log, limit, before);
      WalkIsShown(log, limit, page.nextCursor);
    }
  }

  /** What a walk shows, with or without ties: the messages at `Shown`, so the pages are disjoint. */
  lemma WalkShows(log: Log, limit: Option<Number>)
    requires InOrder(log)
    ensures var shown := Shown(log, PageSize(limit, |log|), |log|);
      && Reads(log, shown, OldestFirst(Walk(log, limit, None)))
      && (forall j, k :: 0 <= j < k < |shown| ==> shown[j] < shown[k])
  {
    AllVisible(log);
    WalkIsShown(log, limit, None);
    ShownIsRead(log, PageSize(limit, |log|), |log|);
    ShownOnce(log, PageSize(limit, |log|), |log|);
  }

  lemma {:induction false} AllVisible(log: Log)
    ensures Earlier(log, None) == log
    decreases |log|
  {
    if log != [] {
      AllVisible(log[..|log| - 1]);
    }
  }

  // ----- which walks are complete

  /** Cutting the first `n` messages into full pages from the newest back, no cut parts two messages of equal time. */
  predicate NoTieAtCut(log: Log, limit: nat, n: nat)
    requires n <= |log| && limit >= 1
    decreases n
  {
    n > limit ==> log[n - limit - 1].createdAt < log[n - limit].createdAt && NoTieAtCut(log, limit, n - limit)
  }

  lemma {:induction false} AllShownIff(log: Log, limit: nat, n: nat)
    requires InOrder(log) && n <= |log| && limit >= 1
    ensures NoTieAtCut(log, limit, n) ==> Shown(log, limit, n) == Positions(0, n)
    ensures !NoTieAtCut(log, limit, n) ==> |Shown(log, limit, n)| < n
    ensures |Shown(log, limit, n)| <= n
    decreases n
  {
    if n > limit {
      AllShownIff(log, limit, OlderThan(log, n - limit));
    }
  }

  /** Following the cursors from the newest page gives the log, each message once. */
  ghost predicate Complete(log: Log, limit: Option<Number>) {
    OldestFirst(Walk(log, limit, None)) == log
  }

  /** The pages make up the log exactly when no tie straddles a cut between full pages. */
  lemma {:induction false} WalkIsCompleteIff(log: Log, limit: Option<Number>)
    requires InOrder(log)
    ensures Complete(log, limit) <==> NoTieAtCut(log, PageSize(limit, |log|), |log|)
  {
    WalkShows(log, limit);
    AllShownIff(log, PageSize(limit, |log|), |log|);
  }

  lemma {:induction false} NoTieInStrictOrder(log: Log, limit: nat, n: nat)
    requires StrictlyInOrder(log) && n <= |log| && limit >= 1
    ensures NoTieAtCut(log, limit, n)
    decreases n
  {
    if n > limit {
      NoTieInStrictOrder(log, limit, n - limit);
    }
  }

  lemma {:induction false} SinglePagesCutEverywhere(log: Log, n: nat, p: nat)
    requires n <= |log| && NoTieAtCut(log, 1, n) && 0 < p < n
    ensures log[p - 1].createdAt < log[p].createdAt
    decreases n
  {
    if p < n - 1 {
      SinglePagesCutEverywhere(log, n - 1, p);
    }
  }

  lemma SinglePagesNeedStrictOrder(log: Log)
    requires InOrder(log) && NoTieAtCut(log, 1, |log|)
    ensures StrictlyInOrder(log)
  {
    forall i, j | 0 <= i < j < |log| ensures log[i].createdAt < log[j].createdAt {
      SinglePagesCutEverywhere(log, |log|, j);
    }
  }

  /** Every limit gives the whole log exactly when no two messages have the same time. */
  lemma EveryLimitIsCompleteIff(log: Log)
    requires InOrder(log)
    ensures (forall limit :: Complete(log, limit)) <==> StrictlyInOrder(log)
  {
    if StrictlyInOrder(log) {
      forall limit ensures Complete(log, limit) {
        WalkIsCompleteIff(log, limit);
        NoTieInStrictOrder(log, PageSize(limit, |log|), |log|);
      }
    }
    if Complete(log, Some(Finite(1.0))) {
      WalkIsCompleteIff(log, Some(Finite(1.0)));
      SinglePagesNeedStrictOrder(log);
    }
  }

  lemma {:induction false} EarlierIgnoresLater(log: Log, more: Log, cursor: int)
    requires forall i :: 0 <= i < |more| ==> more[i].createdAt >= cursor
    ensures Earlier(log + more, Some(cursor)) == Earlier(log, Some(cursor))
    decreases |more|
  {
    if more == [] {
      assert log + more == log;
    } else {
      EarlierIgnoresLater(log, more[..|more| - 1], cursor);
      assert (log + more)[..|log + more| - 1] == log + more[..|more| - 1];
    }
  }

  /** Messages added meanwhile do not change an older page. */
  lemma {:induction false} AppendsDoNotDisturb(log: Log, more: Log, limit: Option<Number>, cursor: int)
    requires forall i :: 0 <= i < |more| ==> more[i].createdAt >= cursor
    ensures PageOf(log + more, limit, Some(cursor)) == PageOf(log, limit, Some(cursor))
  {
    EarlierIgnoresLater(log, more, cursor);
  }
}
