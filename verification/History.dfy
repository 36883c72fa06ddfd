/** get_history: cursor paging over the message table, and the replay built on it. */
module History {
  import opened Wrappers
  import opened MessageLog

  // ---------------------------------------------------------------- the query

  /** max(1, min(limit, 100)). */
  function Clamp(limit: int): (k: nat)
    ensures 1 <= k <= 100 && (1 <= limit <= 100 ==> k == limit)
    ensures (limit < 1 ==> k == 1) && (limit > 100 ==> k == 100)
  {
    if limit < 1 then 1 else if limit > 100 then 100 else limit
  }

  function Below(rows: seq<Message>, b: int): seq<Message> {
    if rows == [] then []
    else
      var last := rows[|rows| - 1];
      Below(rows[..|rows| - 1], b) + if last.sequence < b then [last] else []
  }

  function Above(rows: seq<Message>, a: int): seq<Message> {
    if rows == [] then []
    else
      var last := rows[|rows| - 1];
      Above(rows[..|rows| - 1], a) + if last.sequence > a then [last] else []
  }

  function Insert(s: seq<Message>, m: Message): seq<Message> {
    if s == [] || s[|s| - 1].sequence <= m.sequence then s + [m]
    else Insert(s[..|s| - 1], m) + [s[|s| - 1]]
  }

  /** Stable ascending sort by sequence number. */
  function Ascending(s: seq<Message>): seq<Message> {
    if s == [] then [] else Insert(Ascending(s[..|s| - 1]), s[|s| - 1])
  }

  function Reverse(s: seq<Message>): (r: seq<Message>)
    ensures |r| == |s|
    ensures forall i :: 0 <= i < |s| ==> r[i] == s[|s| - 1 - i]
  {
    if s == [] then [] else [s[|s| - 1]] + Reverse(s[..|s| - 1])
  }

  function Descending(s: seq<Message>): seq<Message> {
    Reverse(Ascending(s))
  }

  function First(s: seq<Message>, k: nat): seq<Message> {
    if k < |s| then s[..k] else s
  }

  /** Filter, order, limit, and sort the page for display; `before` takes precedence over `after`. */
  function GetHistory(messages: seq<Message>, conv: string, before: Option<int>, after: Option<int>,
                      limit: int): seq<Message>
  {
    var rows, k := ConvLog(messages, conv), Clamp(limit);
    var page :=
      if before.Some? then First(Descending(Below(rows, before.value)), k)
      else if after.Some? then First(Ascending(Above(rows, after.value)), k)
      else First(Descending(rows), k);
    Ascending(page)
  }

  // ---------------------------------------------------------------- on a gapless log

  function Min(a: int, b: int): int { if a < b then a else b }
  function Max(a: int, b: int): int { if a < b then b else a }

  /** n clipped to 0..|log|: how many messages of a gapless log are numbered n or less. */
  function Clip(n: int, size: nat): (r: nat)
    ensures r <= size && (0 <= n <= size ==> r == n)
  {
    Max(0, Min(n, size))
  }

  ghost predicate Numbered(log: seq<Message>, from: int) {
    forall i :: 0 <= i < |log| ==> log[i].sequence == from + i
  }

  lemma {:induction false} BelowIsPrefix(log: seq<Message>, b: int)
    requires Numbered(log, 1)
    ensures Below(log, b) == log[..Clip(b - 1, |log|)]
  {
    if log != [] {
      var init := log[..|log| - 1];
      BelowIsPrefix(init, b);
      assert log == init + [log[|log| - 1]];
    }
  }

  lemma {:induction false} AboveIsSuffix(log: seq<Message>, a: int)
    requires Numbered(log, 1)
    ensures Above(log, a) == log[Clip(a, |log|)..]
  {
    if log != [] {
      var n := |log| - 1;
      assert log[n].sequence == n + 1;
      ClipStep(a, n);
      AboveIsSuffix(log[..n], a);
      hide Numbered, Clip;
      if n + 1 > a {
        SuffixSnoc(log, Clip(a, n));
      } else {
        assert log[..n][n..] == [] && log[n + 1..] == [];
      }
    }
  }

  lemma ClipStep(a: int, n: nat)
    ensures if n + 1 > a then Clip(a, n + 1) == Clip(a, n) else Clip(a, n) == n && Clip(a, n + 1) == n + 1
  {
  }

  lemma SuffixSnoc(log: seq<Message>, c: nat)
    requires log != [] && c < |log|
    ensures log[c..] == log[..|log| - 1][c..] + [log[|log| - 1]]
  {
  }

  lemma {:induction false} AscendingStays(s: seq<Message>, from: int)
    requires Numbered(s, from)
    ensures Ascending(s) == s
  {
    if s != [] { AscendingStays(s[..|s| - 1], from); }
  }

  lemma {:induction false} InsertSmallest(s: seq<Message>, m: Message)
    requires forall i :: 0 <= i < |s| ==> m.sequence < s[i].sequence
    ensures Insert(s, m) == [m] + s
  {
    if s != [] { InsertSmallest(s[..|s| - 1], m); }
  }

  lemma {:induction false} DescendingIsRestored(s: seq<Message>, from: int)
    requires Numbered(s, from)
    ensures Ascending(Reverse(s)) == s
  {
    if s != [] {
      var r := Reverse(s);
      assert r[..|r| - 1] == Reverse(s[1..]);
      DescendingIsRestored(s[1..], from + 1);
      InsertSmallest(s[1..], s[0]);
    }
  }

  /** The newest k of a numbered list, taken in descending order, come out as its suffix. */
  lemma NewestPage(s: seq<Message>, k: nat)
    requires Numbered(s, 1)
    ensures Ascending(First(Descending(s), k)) == s[Max(0, |s| - k)..]
  {
    var lo := Max(0, |s| - k);
    AscendingStays(s, 1);
    NumberedSuffix(s, lo);
    DescendingIsRestored(s[lo..], lo + 1);
    FirstOfReverse(s, k);
    hide Ascending, Numbered, First, Reverse;
  }

  lemma NumberedSuffix(s: seq<Message>, lo: nat)
    requires Numbered(s, 1) && lo <= |s|
    ensures Numbered(s[lo..], lo + 1)
  {
  }

  lemma {:induction false} FirstOfReverse(s: seq<Message>, k: nat)
    ensures First(Reverse(s), k) == Reverse(s[Max(0, |s| - k)..])
  {
    if k == 0 || s == [] {
      assert s[Max(0, |s| - k)..] == [];
    } else {
      var init, last, lo := s[..|s| - 1], s[|s| - 1], Max(0, |s| - k);
      FirstOfReverse(init, k - 1);
      FirstSnoc(last, Reverse(init), k);
      ReverseSnoc(s, lo);
    }
  }

  lemma FirstSnoc(m: Message, rest: seq<Message>, k: nat)
    requires k > 0
    ensures First([m] + rest, k) == [m] + First(rest, k - 1)
  {
  }

  lemma ReverseSnoc(s: seq<Message>, lo: nat)
    requires lo < |s|
    ensures Reverse(s[lo..]) == [s[|s| - 1]] + Reverse(s[..|s| - 1][lo..])
  {
    assert s[lo..][..|s| - lo - 1] == s[..|s| - 1][lo..];
  }

  lemma OldestPage(rows: seq<Message>, a: int, k: nat)
    requires Numbered(rows, 1)
    ensures var lo := Clip(a, |rows|);
            Ascending(First(Ascending(Above(rows, a)), k)) == rows[lo..Min(|rows|, lo + k)]
  {
    hide Ascending, Above;
    var lo := Clip(a, |rows|);
    AboveIsSuffix(rows, a);
    AscendingStays(rows[lo..], lo + 1);
    var page := First(rows[lo..], k);
    assert page == rows[lo..Min(|rows|, lo + k)];
    AscendingStays(page, lo + 1);
  }

  lemma LogIsNumbered(messages: seq<Message>, conv: string)
    requires Gapless(messages)
    ensures Numbered(ConvLog(messages, conv), 1)
  {
    hide ConvLog;
  }

  /** A page after a cursor is the next k messages of the log, whatever the cursor. */
  lemma PageAfter(messages: seq<Message>, conv: string, a: int, limit: int)
    requires Gapless(messages)
    ensures var log := ConvLog(messages, conv);
            var lo := Clip(a, |log|);
            var page := GetHistory(messages, conv, None, Some(a), limit);
            && page == log[lo..Min(|log|, lo + Clamp(limit))]
            && (1 <= limit <= 100 ==> page == log[lo..Min(|log|, lo + limit)])
            && (limit < 1 ==> |page| <= 1) && |page| <= 100
            && (0 <= a <= |log| ==> lo == a)
  {
    hide Ascending, Above, ConvLog, Gapless, First;
    LogIsNumbered(messages, conv);
    OldestPage(ConvLog(messages, conv), a, Clamp(limit));
  }

  /** A page before a cursor is the last k messages numbered below it; `after` is then ignored. */
  lemma PageBefore(messages: seq<Message>, conv: string, b: int, after: Option<int>, limit: int)
    requires Gapless(messages)
    ensures var log := ConvLog(messages, conv);
            var hi := Clip(b - 1, |log|);
            var page := GetHistory(messages, conv, Some(b), after, limit);
            && page == log[Max(0, hi - Clamp(limit))..hi]
            && (1 <= limit <= 100 ==> page == log[Max(0, hi - limit)..hi])
            && (limit < 1 ==> |page| <= 1) && |page| <= 100
            && (1 <= b <= |log| + 1 ==> hi == b - 1)
  {
    hide Ascending, Below, Descending, ConvLog, Gapless, First;
    LogIsNumbered(messages, conv);
    var log := ConvLog(messages, conv);
    var hi := Clip(b - 1, |log|);
    BelowIsPrefix(log, b);
    NewestPage(log[..hi], Clamp(limit));
    assert log[..hi][Max(0, hi - Clamp(limit))..] == log[Max(0, hi - Clamp(limit))..hi];
  }

  /** Without a cursor the page is the end of the log. */
  lemma LatestPage(messages: seq<Message>, conv: string, limit: int)
    requires Gapless(messages)
    ensures var log := ConvLog(messages, conv);
            var page := GetHistory(messages, conv, None, None, limit);
            && page == log[Max(0, |log| - Clamp(limit))..]
            && (1 <= limit <= 100 ==> page == log[Max(0, |log| - limit)..])
            && (limit < 1 ==> |page| <= 1) && |page| <= 100
  {
    hide Ascending, Descending, ConvLog, Gapless, First;
    LogIsNumbered(messages, conv);
    NewestPage(ConvLog(messages, conv), Clamp(limit));
  }

  // ---------------------------------------------------------------- walking the log

  /** The table at each request of a walk: gapless, and growing by appended rows only. */
  ghost predicate Growing(tables: seq<seq<Message>>) {
    && (forall i :: 0 <= i < |tables| ==> Gapless(tables[i]))
    && (forall i :: 0 < i < |tables| ==> tables[i - 1] <= tables[i])
  }

  function Concat(pages: seq<seq<Message>>): seq<Message> {
    if pages == [] then [] else pages[0] + Concat(pages[1..])
  }

  /** The cursor a client continues from: the last number it has seen. */
  function NextCursor(page: seq<Message>, cursor: int): int {
    if page == [] then cursor else page[|page| - 1].sequence
  }

  /** The pages of an after_seq walk, one request per table. */
  function WalkAfter(tables: seq<seq<Message>>, conv: string, a: int, limit: int): (pages: seq<seq<Message>>)
    ensures |pages| == |tables|
  {
    if tables == [] then []
    else
      var page := GetHistory(tables[0], conv, None, Some(a), limit);
      [page] + WalkAfter(tables[1..], conv, NextCursor(page, a), limit)
  }

  lemma {:induction false} ConvLogPrefix(a: seq<Message>, b: seq<Message>, conv: string)
    requires a <= b
    ensures ConvLog(a, conv) <= ConvLog(b, conv)
    decreases |b|
  {
    if |a| < |b| {
      ConvLogPrefix(a, b[..|b| - 1], conv);
    } else {
      assert a == b;
    }
  }

  lemma {:induction false} GrowingPrefix(tables: seq<seq<Message>>, i: nat)
    requires Growing(tables) && i < |tables|
    ensures tables[0] <= tables[i]
  {
    if i > 0 { GrowingPrefix(tables, i - 1); }
  }

  lemma CursorMoves(messages: seq<Message>, conv: string, a: nat, limit: int)
    requires Gapless(messages) && a <= |ConvLog(messages, conv)|
    ensures var log := ConvLog(messages, conv);
            var page, b := GetHistory(messages, conv, None, Some(a), limit), Min(|log|, a + Clamp(limit));
            page == log[a..b] && NextCursor(page, a) == b
  {
    hide GetHistory, ConvLog, Gapless;
    PageAfter(messages, conv, a, limit);
    LogIsNumbered(messages, conv);
    var log := ConvLog(messages, conv);
    var b := Min(|log|, a + Clamp(limit));
    assert a < b ==> log[b - 1].sequence == b;
    hide Numbered;
  }

  lemma CursorMovesBack(messages: seq<Message>, conv: string, b: int, limit: int)
    requires Gapless(messages) && 1 <= b <= |ConvLog(messages, conv)| + 1
    ensures var log := ConvLog(messages, conv);
            var page, lo := GetHistory(messages, conv, Some(b), None, limit), Max(0, b - 1 - Clamp(limit));
            page == log[lo..b - 1] && (if page == [] then b else page[0].sequence) == lo + 1
  {
    hide GetHistory, ConvLog, Gapless;
    PageBefore(messages, conv, b, None, limit);
    LogIsNumbered(messages, conv);
    var log, lo := ConvLog(messages, conv), Max(0, b - 1 - Clamp(limit));
    assert lo < b - 1 ==> log[lo].sequence == lo + 1;
    hide Numbered;
  }

  lemma OneMore(n: nat, k: nat)
    requires n >= 1
    ensures n * k == (n - 1) * k + k && (n + 1) * k == n * k + k && (n - 1) * k >= 0
  {
  }

  /** How far an after_seq walk has come: one full page a request, as far as the log then reached. */
  function Reach(tables: seq<seq<Message>>, conv: string, a: nat, limit: int): nat {
    if tables == [] then a
    else Reach(tables[1..], conv, Min(|ConvLog(tables[0], conv)|, a + Clamp(limit)), limit)
  }

  /**
   Walking after_seq pages yields, in order and without repetition, exactly the messages from the
   start cursor up to where the walk got, although sends append rows between the requests.
   */
  lemma {:induction false} WalkAfterIsTheLog(tables: seq<seq<Message>>, conv: string, a: nat, limit: int)
    requires Growing(tables) && tables != [] && a <= |ConvLog(tables[0], conv)|
    ensures var log := ConvLog(tables[|tables| - 1], conv);
            var r := Reach(tables, conv, a, limit);
            a <= r <= |log| && Concat(WalkAfter(tables, conv, a, limit)) == log[a..r]
    decreases |tables|
  {
    hide GetHistory, ConvLog, Gapless, Growing;
    GrowingTail(tables, conv);
    CursorMoves(tables[0], conv, a, limit);
    var first, last := ConvLog(tables[0], conv), ConvLog(tables[|tables| - 1], conv);
    var page, b := GetHistory(tables[0], conv, None, Some(a), limit), Min(|first|, a + Clamp(limit));
    PrefixSlice(first, last, a, b);
    var rest := WalkAfter(tables[1..], conv, b, limit);
    assert Concat([page] + rest) == page + Concat(rest) by { assert ([page] + rest)[1..] == rest; }
    if |tables| > 1 {
      WalkAfterIsTheLog(tables[1..], conv, b, limit);
      Glue(last, a, b, Reach(tables[1..], conv, b, limit));
    } else {
      assert Concat(rest) == [] && page + [] == page;
    }
  }

  lemma GrowingTail(tables: seq<seq<Message>>, conv: string)
    requires Growing(tables) && tables != []
    ensures Gapless(tables[0]) && ConvLog(tables[0], conv) <= ConvLog(tables[|tables| - 1], conv)
    ensures |tables| > 1 ==> Growing(tables[1..]) && |ConvLog(tables[0], conv)| <= |ConvLog(tables[1], conv)|
  {
    hide ConvLog, Gapless;
    GrowingPrefix(tables, |tables| - 1);
    ConvLogPrefix(tables[0], tables[|tables| - 1], conv);
    if |tables| > 1 { ConvLogPrefix(tables[0], tables[1], conv); }
  }

  lemma PrefixSlice(s: seq<Message>, t: seq<Message>, a: nat, b: nat)
    requires s <= t && a <= b <= |s|
    ensures t[a..b] == s[a..b]
  {
  }

  lemma Glue(s: seq<Message>, a: nat, b: nat, c: nat)
    requires a <= b <= c <= |s|
    ensures s[a..b] + s[b..c] == s[a..c]
  {
  }

  /** As many requests as the backlog has pages are enough to reach its end. */
  lemma {:induction false} WalkAfterReaches(tables: seq<seq<Message>>, conv: string, a: nat, limit: int, n: nat)
    requires Growing(tables) && a <= n && (tables != [] ==> n <= |ConvLog(tables[0], conv)|)
    ensures Reach(tables, conv, a, limit) >= Min(n, a + |tables| * Clamp(limit))
    decreases |tables|
  {
    hide ConvLog, Gapless, Clamp;
    if tables != [] {
      if |tables| > 1 { ConvLogPrefix(tables[0], tables[1], conv); }
      var k, size := Clamp(limit), |ConvLog(tables[0], conv)|;
      var b := Min(size, a + k);
      WalkAfterReaches(tables[1..], conv, b, limit, Max(b, n));
      OneMore(|tables|, k);
      OneMoreRequest(a, k, n, size, |tables[1..]| * k, |tables| * k);
    }
  }

  lemma OneMoreRequest(a: nat, k: nat, n: nat, size: nat, p: int, q: int)
    requires n <= size && 0 <= p && q == p + k
    ensures var b := Min(size, a + k); Min(Max(b, n), b + p) >= Min(n, a + q)
  {
  }

  /** The same request table throughout. */
  function Still(table: seq<Message>, requests: nat): (r: seq<seq<Message>>)
    ensures |r| == requests
  {
    if requests == 0 then [] else [table] + Still(table, requests - 1)
  }

  /** Where page j starts on a log of n messages. */
  function PageStart(n: nat, a: nat, k: nat, j: nat): nat {
    if j == 0 then Min(n, a) else Min(n, PageStart(n, a, k, j - 1) + k)
  }

  lemma {:induction false} PageStartShift(n: nat, a: nat, k: nat, j: nat)
    ensures PageStart(n, Min(n, a + k), k, j) == PageStart(n, a, k, j + 1)
  {
    if j > 0 { PageStartShift(n, a, k, j - 1); }
  }

  lemma {:induction false} PageStartClosed(n: nat, a: nat, k: nat, j: nat)
    ensures PageStart(n, a, k, j) == Min(n, a + j * k)
  {
    if j > 0 {
      PageStartClosed(n, a, k, j - 1);
      OneMore(j, k);
      NextStart(n, a, k, (j - 1) * k, j * k);
    }
  }

  lemma NextStart(n: nat, a: nat, k: nat, p: int, q: int)
    requires q == p + k
    ensures Min(n, Min(n, a + p) + k) == Min(n, a + q)
  {
  }

  lemma FirstOfStill(table: seq<Message>, requests: nat)
    requires requests > 0
    ensures Still(table, requests)[0] == table && Still(table, requests)[1..] == Still(table, requests - 1)
  {
  }

  lemma WalkSplits(tables: seq<seq<Message>>, conv: string, a: int, limit: int)
    requires tables != []
    ensures var page := GetHistory(tables[0], conv, None, Some(a), limit);
            var pages := WalkAfter(tables, conv, a, limit);
            pages[0] == page && pages[1..] == WalkAfter(tables[1..], conv, NextCursor(page, a), limit)
  {
    hide GetHistory;
  }

  lemma {:induction false} StillPageStarts(table: seq<Message>, requests: nat, conv: string, a: nat, limit: int, j: nat)
    requires Gapless(table) && j < requests && a <= |ConvLog(table, conv)|
    ensures var log, k := ConvLog(table, conv), Clamp(limit);
            WalkAfter(Still(table, requests), conv, a, limit)[j] ==
              log[PageStart(|log|, a, k, j)..PageStart(|log|, a, k, j + 1)]
  {
    hide GetHistory, ConvLog, Gapless, WalkAfter, Still;
    CursorMoves(table, conv, a, limit);
    var n, k := |ConvLog(table, conv)|, Clamp(limit);
    var b := Min(n, a + k);
    FirstOfStill(table, requests);
    WalkSplits(Still(table, requests), conv, a, limit);
    var pages := WalkAfter(Still(table, requests), conv, a, limit);
    if j > 0 {
      StillPageStarts(table, requests - 1, conv, b, limit, j - 1);
      assert pages[j] == pages[1..][j - 1];
      PageStartShift(n, a, k, j - 1);
      PageStartShift(n, a, k, j);
    } else {
      assert PageStart(n, a, k, 1) == Min(n, PageStart(n, a, k, 0) + k);
    }
  }

  lemma PageExtent(n: nat, a: nat, k: nat, j: nat)
    requires a <= n && k >= 1
    ensures PageStart(n, a, k, j) == Min(n, a + j * k)
    ensures PageStart(n, a, k, j + 1) == Min(n, PageStart(n, a, k, j) + k)
    ensures PageStart(n, a, k, j) < PageStart(n, a, k, j + 1) <==> j * k < n - a
  {
    PageStartClosed(n, a, k, j);
  }

  /**
   On a log that stands still, page j of the walk starts after j full pages and is as full as the
   log allows; it is empty from j * k >= m on, so a backlog of m takes exactly ceil(m/k) pages.
   */
  lemma StillPages(table: seq<Message>, requests: nat, conv: string, a: nat, limit: int, j: nat)
    requires Gapless(table) && j < requests && a <= |ConvLog(table, conv)|
    ensures var log, k := ConvLog(table, conv), Clamp(limit);
            var start := PageStart(|log|, a, k, j);
            var page := WalkAfter(Still(table, requests), conv, a, limit)[j];
            && start == Min(|log|, a + j * k) && page == log[start..Min(|log|, start + k)]
            && (page != [] <==> j * k < |log| - a)
  {
    hide WalkAfter, ConvLog, Gapless;
    StillPageStarts(table, requests, conv, a, limit, j);
    PageExtent(|ConvLog(table, conv)|, a, Clamp(limit), j);
  }

  /** The number of pages is the backlog over the limit, rounded up. */
  lemma PagesNeeded(table: seq<Message>, requests: nat, conv: string, a: nat, limit: int, j: nat)
    requires Gapless(table) && j < requests && a <= |ConvLog(table, conv)| && 1 <= limit <= 100
    ensures WalkAfter(Still(table, requests), conv, a, limit)[j] != []
        <==> j < (|ConvLog(table, conv)| - a + limit - 1) / limit
  {
    hide WalkAfter, ConvLog, Gapless, Still;
    StillPages(table, requests, conv, a, limit, j);
    RoundUp(|ConvLog(table, conv)| - a, limit, j);
  }

  lemma RoundUp(m: nat, k: nat, j: nat)
    requires k >= 1
    ensures j * k < m <==> j < (m + k - 1) / k
  {
    var q := (m + k - 1) / k;
    assert q * k <= m + k - 1 < q * k + k;
    if j < q { Times(j + 1, q, k); assert (j + 1) * k == j * k + k; } else { Times(q, j, k); }
  }

  lemma Times(a: nat, b: nat, k: nat)
    requires a <= b
    ensures a * k <= b * k
  {
  }

  /** What a client that scrolls back assembles: each before_seq page goes in front. */
  function ScrollBack(tables: seq<seq<Message>>, conv: string, b: int, limit: int): seq<Message> {
    if tables == [] then []
    else
      var page := GetHistory(tables[0], conv, Some(b), None, limit);
      ScrollBack(tables[1..], conv, if page == [] then b else page[0].sequence, limit) + page
  }

  /** The messages below hi that `requests` full pages leave out. */
  function Unscrolled(hi: nat, k: nat, requests: nat): nat {
    if requests == 0 then hi else Unscrolled(Max(0, hi - k), k, requests - 1)
  }

  lemma {:induction false} UnscrolledClosed(hi: nat, k: nat, requests: nat)
    ensures Unscrolled(hi, k, requests) == Max(0, hi - requests * k)
  {
    if requests > 0 {
      UnscrolledClosed(Max(0, hi - k), k, requests - 1);
      OneMore(requests, k);
      assert (requests - 1) * k >= 0;
    }
  }

  /** Scrolling back rebuilds the log below the cursor, a full page a request, whatever is appended meanwhile. */
  lemma {:induction false} ScrollBackIsTheLog(tables: seq<seq<Message>>, conv: string, b: int, limit: int)
    requires Growing(tables) && tables != [] && 1 <= b <= |ConvLog(tables[0], conv)| + 1
    ensures var log := ConvLog(tables[|tables| - 1], conv);
            var lo := Unscrolled(b - 1, Clamp(limit), |tables|);
            lo <= b - 1 <= |log| && ScrollBack(tables, conv, b, limit) == log[lo..b - 1]
    decreases |tables|
  {
    hide GetHistory, ConvLog, Gapless, Growing;
    GrowingTail(tables, conv);
    CursorMovesBack(tables[0], conv, b, limit);
    var first, last := ConvLog(tables[0], conv), ConvLog(tables[|tables| - 1], conv);
    var lo := Max(0, b - 1 - Clamp(limit));
    PrefixSlice(first, last, lo, b - 1);
    ScrollSplits(tables, conv, b, limit);
    hide ScrollBack;
    if |tables| > 1 {
      ScrollBackIsTheLog(tables[1..], conv, lo + 1, limit);
      Glue(last, Unscrolled(lo, Clamp(limit), |tables| - 1), lo, b - 1);
    } else {
      NothingScrolled(conv, lo + 1, limit);
      assert tables[1..] == [];
      assert [] + last[lo..b - 1] == last[lo..b - 1];
    }
  }

  lemma ScrollSplits(tables: seq<seq<Message>>, conv: string, b: int, limit: int)
    requires tables != []
    ensures var page := GetHistory(tables[0], conv, Some(b), None, limit);
            ScrollBack(tables, conv, b, limit) ==
            ScrollBack(tables[1..], conv, if page == [] then b else page[0].sequence, limit) + page
  {
    hide GetHistory;
  }

  lemma NothingScrolled(conv: string, b: int, limit: int)
    ensures ScrollBack([], conv, b, limit) == []
  {
  }

  // ---------------------------------------------------------------- replay

  const REPLAY_LIMIT := 100

  datatype ReplayFrame = ReplayFrame(messages: seq<Message>, synchronizedUpTo: int)

  /** The answer to a sync frame. */
  function Replay(messages: seq<Message>, conv: string, lastSequence: int): ReplayFrame {
    var page := GetHistory(messages, conv, None, Some(lastSequence), REPLAY_LIMIT);
    ReplayFrame(page, if page == [] then lastSequence else page[|page| - 1].sequence)
  }

  predicate Carries(page: seq<Message>, q: int) {
    exists i :: 0 <= i < |page| && page[i].sequence == q
  }

  /** One replay is exactly the numbers (last, min(n, last + 100)], and says how far it got. */
  lemma ReplayIsExact(messages: seq<Message>, conv: string, last: int)
    requires Gapless(messages) && 0 <= last
    ensures var log, frame := ConvLog(messages, conv), Replay(messages, conv, last);
            var hi := Min(|log|, last + 100);
            && (last <= |log| ==> frame.messages == log[last..hi] && frame.synchronizedUpTo == hi)
            && (forall q :: Carries(frame.messages, q) <==> last < q <= hi)
  {
    hide GetHistory, ConvLog, Gapless, Carries, Numbered;
    PageAfter(messages, conv, last, REPLAY_LIMIT);
    LogIsNumbered(messages, conv);
    var log := ConvLog(messages, conv);
    var hi := Min(|log|, last + REPLAY_LIMIT);
    if last <= |log| {
      SliceEnd(log, last, hi);
      forall q ensures Carries(log[last..hi], q) <==> last < q <= hi {
        SliceCarries(log, last, hi, q);
      }
    } else {
      forall q ensures !Carries([], q) {
        SliceCarries(log, |log|, |log|, q);
      }
    }
  }

  lemma SliceEnd(log: seq<Message>, a: nat, b: nat)
    requires Numbered(log, 1) && a <= b <= |log|
    ensures a < b ==> log[a..b] != [] && log[a..b][b - a - 1].sequence == b
  {
  }

  /** A slice of a numbered log carries the numbers after its start. */
  lemma SliceCarries(log: seq<Message>, a: nat, b: nat, q: int)
    requires Numbered(log, 1) && a <= b <= |log|
    ensures Carries(log[a..b], q) <==> a < q <= b
  {
    if a < q <= b { assert log[a..b][q - a - 1].sequence == q; }
  }

  /** Outside 0..n: a negative position replays from the start, one beyond the log replays nothing. */
  lemma ReplayOffTheLog(messages: seq<Message>, conv: string, last: int)
    requires Gapless(messages)
    ensures last < 0 ==> Replay(messages, conv, last).messages == Replay(messages, conv, 0).messages
    ensures last > |ConvLog(messages, conv)| ==> Replay(messages, conv, last) == ReplayFrame([], last)
  {
    PageAfter(messages, conv, last, REPLAY_LIMIT);
    PageAfter(messages, conv, 0, REPLAY_LIMIT);
  }
}
