/** The administrator's consistency check over the message and outbox tables. */
module Integrity {
  import opened MessageLog
  import O = Outbox
  import H = History
  import S = System

  /** A sequence number found where another was expected. */
  datatype Anomaly = Anomaly(conv: string, found: int, expected: int)

  function Anomalies(conv: string, numbers: seq<int>): seq<Anomaly> {
    if numbers == [] then []
    else
      var n := |numbers|;
      Anomalies(conv, numbers[..n - 1]) + if numbers[n - 1] != n then [Anomaly(conv, numbers[n - 1], n)] else []
  }

  /** select sequence_number where conversation_id = conv order by sequence_number asc. */
  function Numbers(messages: seq<Message>, conv: string): seq<int> {
    var sorted := H.Ascending(ConvLog(messages, conv));
    seq(|sorted|, i requires 0 <= i < |sorted| => sorted[i].sequence)
  }

  function AllAnomalies(messages: seq<Message>, convs: seq<string>): seq<Anomaly> {
    if convs == [] then []
    else
      var last := convs[|convs| - 1];
      AllAnomalies(messages, convs[..|convs| - 1]) + Anomalies(last, Numbers(messages, last))
  }

  predicate IsStuck(e: O.Event, now: real) {
    e.status == O.Processing && e.lockedAt.Some? && e.lockedAt.value < now
  }

  function StuckCount(outbox: seq<O.Event>, now: real): nat {
    if outbox == [] then 0
    else StuckCount(outbox[..|outbox| - 1], now) + if IsStuck(outbox[|outbox| - 1], now) then 1 else 0
  }

  /** verify_database_integrity, given the answer of its select of conversation ids. */
  method VerifyDatabaseIntegrity(messages: seq<Message>, convs: seq<string>, outbox: seq<O.Event>, now: real)
    returns (clean: bool, anomalies: seq<Anomaly>, stuck: nat)
    ensures anomalies == AllAnomalies(messages, convs) && stuck == StuckCount(outbox, now)
    ensures clean <==> anomalies == [] && stuck == 0
    ensures clean <==>
      && (forall c :: c in convs ==> IsCounting(Numbers(messages, c)))
      && forall e :: e in outbox ==> !(e.status == O.Processing && e.lockedAt.Some? && e.lockedAt.value < now)
    ensures stuck == |set i | 0 <= i < |outbox| && outbox[i].status == O.Processing
                              && outbox[i].lockedAt.Some? && outbox[i].lockedAt.value < now|
  {
    anomalies := [];
    var i := 0;
    while i < |convs|
      invariant 0 <= i <= |convs| && anomalies == AllAnomalies(messages, convs[..i])
    {
      assert convs[..i + 1][..i] == convs[..i];
      var found := CheckSequence(convs[i], Numbers(messages, convs[i]));
      anomalies := anomalies + found;
      i := i + 1;
    }
    assert convs[..i] == convs;
    stuck := 0;
    i := 0;
    while i < |outbox|
      invariant 0 <= i <= |outbox| && stuck == StuckCount(outbox[..i], now)
    {
      assert outbox[..i + 1][..i] == outbox[..i];
      if IsStuck(outbox[i], now) { stuck := stuck + 1; }
      i := i + 1;
    }
    assert outbox[..i] == outbox;
    clean := anomalies == [] && stuck == 0;
    NoAnomaliesIff(messages, convs);
    NoneStuckIff(outbox, now);
    StuckByColumns(outbox, now);
  }

  /** The inner loop: compare each number with a running expectation. */
  method CheckSequence(conv: string, numbers: seq<int>) returns (anomalies: seq<Anomaly>)
    ensures anomalies == Anomalies(conv, numbers)
  {
    anomalies := [];
    var expected, i := 1, 0;
    while i < |numbers|
      invariant 0 <= i <= |numbers| && expected == i + 1
      invariant anomalies == Anomalies(conv, numbers[..i])
    {
      assert numbers[..i + 1][..i] == numbers[..i];
      if numbers[i] != expected {
        anomalies := anomalies + [Anomaly(conv, numbers[i], expected)];
      }
      expected := expected + 1;
      i := i + 1;
    }
    assert numbers[..i] == numbers;
  }

  // ---------------------------------------------------------------- what is reported

  /** The list is 1, 2, 3, ... */
  predicate IsCounting(numbers: seq<int>) {
    forall i :: 0 <= i < |numbers| ==> numbers[i] == i + 1
  }

  /** Nothing is reported exactly if the list is 1..n, whatever the list. */
  lemma {:induction false} SilentIffCounting(conv: string, numbers: seq<int>)
    ensures Anomalies(conv, numbers) == [] <==> IsCounting(numbers)
  {
    if numbers != [] {
      var init := numbers[..|numbers| - 1];
      SilentIffCounting(conv, init);
      assert numbers == init + [numbers[|numbers| - 1]];
    }
  }

  predicate StrictlyAscending(numbers: seq<int>) {
    forall i, j :: 0 <= i < j < |numbers| ==> numbers[i] < numbers[j]
  }

  /** The first position whose number is not the expected one. */
  function FirstGap(numbers: seq<int>): (g: nat)
    ensures g <= |numbers| && IsCounting(numbers[..g])
    ensures g < |numbers| ==> numbers[g] != g + 1
  {
    if numbers == [] then 0
    else
      var init := numbers[..|numbers| - 1];
      var g := FirstGap(init);
      assert numbers[..g] == init[..g];
      if g < |init| then g
      else if numbers[g] == g + 1 then
        assert numbers[..g + 1] == init + [numbers[g]];
        g + 1
      else g
  }

  /** Each number from position g on, with the number expected there. */
  function Suffix(conv: string, numbers: seq<int>, g: nat): (r: seq<Anomaly>)
    requires g <= |numbers|
    ensures |r| == |numbers| - g
    ensures forall j :: 0 <= j < |r| ==> r[j] == Anomaly(conv, numbers[g + j], g + j + 1)
  {
    seq(|numbers| - g, j requires 0 <= j < |numbers| - g => Anomaly(conv, numbers[g + j], g + j + 1))
  }

  /** On an ascending list of distinct positive numbers everything from the first gap on is reported, in order. */
  lemma ReportsSuffixFromGap(conv: string, numbers: seq<int>)
    requires StrictlyAscending(numbers) && forall i :: 0 <= i < |numbers| ==> numbers[i] >= 1
    ensures Anomalies(conv, numbers) == Suffix(conv, numbers, FirstGap(numbers))
  {
    var g := FirstGap(numbers);
    if g < |numbers| {
      assert numbers[g] > g + 1 by { if g > 0 { assert numbers[..g][g - 1] == g; } }
      AheadStays(numbers, g);
    }
    ReportsFrom(conv, numbers, g);
  }

  lemma {:induction false} ReportsFrom(conv: string, numbers: seq<int>, g: nat)
    requires g <= |numbers| && IsCounting(numbers[..g])
    requires forall i :: g <= i < |numbers| ==> numbers[i] != i + 1
    ensures Anomalies(conv, numbers) == Suffix(conv, numbers, g)
  {
    if g == |numbers| {
      assert numbers[..g] == numbers;
      SilentIffCounting(conv, numbers);
    } else {
      var init := numbers[..|numbers| - 1];
      assert init[..g] == numbers[..g];
      ReportsFrom(conv, init, g);
    }
  }

  /** Once ahead of the count, an ascending list stays ahead. */
  lemma {:induction false} AheadStays(numbers: seq<int>, g: nat)
    requires StrictlyAscending(numbers) && g < |numbers| && numbers[g] > g + 1
    ensures forall i :: g <= i < |numbers| ==> numbers[i] > i + 1
    decreases |numbers| - g
  {
    if g + 1 < |numbers| { AheadStays(numbers, g + 1); }
  }

  lemma {:induction false} NoAnomaliesIff(messages: seq<Message>, convs: seq<string>)
    ensures AllAnomalies(messages, convs) == [] <==> forall c :: c in convs ==> IsCounting(Numbers(messages, c))
  {
    if convs != [] {
      var init, last := convs[..|convs| - 1], convs[|convs| - 1];
      NoAnomaliesIff(messages, init);
      SilentIffCounting(last, Numbers(messages, last));
      assert convs == init + [last];
    }
  }

  lemma {:induction false} NoneStuckIff(outbox: seq<O.Event>, now: real)
    ensures StuckCount(outbox, now) == 0 <==> forall e :: e in outbox ==> !IsStuck(e, now)
  {
    if outbox != [] {
      var init, last := outbox[..|outbox| - 1], outbox[|outbox| - 1];
      NoneStuckIff(init, now);
      assert outbox == init + [last];
    }
  }

  lemma {:induction false} StuckCounts(outbox: seq<O.Event>, now: real)
    ensures StuckCount(outbox, now) == |set i | 0 <= i < |outbox| && IsStuck(outbox[i], now)|
  {
    if outbox != [] {
      var n, init := |outbox| - 1, outbox[..|outbox| - 1];
      StuckCounts(init, now);
      var before := set i | 0 <= i < n && IsStuck(init[i], now);
      var all := set i | 0 <= i < |outbox| && IsStuck(outbox[i], now);
      assert n !in before;
      assert all == if IsStuck(outbox[n], now) then before + {n} else before;
    }
  }

  /** The same by the columns. */
  lemma StuckByColumns(outbox: seq<O.Event>, now: real)
    ensures StuckCount(outbox, now) ==
      |set i | 0 <= i < |outbox| && outbox[i].status == O.Processing
               && outbox[i].lockedAt.Some? && outbox[i].lockedAt.value < now|
  {
    StuckCounts(outbox, now);
    assert (set i | 0 <= i < |outbox| && IsStuck(outbox[i], now)) ==
      set i | 0 <= i < |outbox| && outbox[i].status == O.Processing
              && outbox[i].lockedAt.Some? && outbox[i].lockedAt.value < now;
  }

  // ---------------------------------------------------------------- what is read

  function SequencesOf(rows: seq<Message>): (r: seq<int>)
    ensures |r| == |rows|
    ensures forall i :: 0 <= i < |rows| ==> r[i] == rows[i].sequence
  {
    seq(|rows|, i requires 0 <= i < |rows| => rows[i].sequence)
  }

  /** How many rows carry number q. */
  function Tally(rows: seq<Message>, q: int): nat {
    if rows == [] then 0 else Tally(rows[..|rows| - 1], q) + if rows[|rows| - 1].sequence == q then 1 else 0
  }

  lemma {:induction false} TallyCounts(rows: seq<Message>, q: int)
    ensures multiset(SequencesOf(rows))[q] == Tally(rows, q)
  {
    if rows != [] {
      var init, last := rows[..|rows| - 1], rows[|rows| - 1];
      TallyCounts(init, q);
      assert SequencesOf(rows) == SequencesOf(init) + [last.sequence];
    }
  }

  lemma TallySnoc(rows: seq<Message>, m: Message, q: int)
    ensures Tally(rows + [m], q) == Tally(rows, q) + if m.sequence == q then 1 else 0
  {
    assert (rows + [m])[..|rows|] == rows;
  }

  ghost predicate Sorted(rows: seq<Message>) {
    forall i, j :: 0 <= i < j < |rows| ==> rows[i].sequence <= rows[j].sequence
  }

  lemma {:induction false} InsertMembers(s: seq<Message>, m: Message)
    ensures forall x :: x in H.Insert(s, m) ==> x in s || x == m
  {
    if s != [] {
      InsertMembers(s[..|s| - 1], m);
      assert forall x :: x in s[..|s| - 1] ==> x in s;
    }
  }

  lemma {:induction false} InsertSorts(s: seq<Message>, m: Message)
    requires Sorted(s)
    ensures Sorted(H.Insert(s, m))
  {
    if s != [] && s[|s| - 1].sequence > m.sequence {
      var init, last := s[..|s| - 1], s[|s| - 1];
      InsertSorts(init, m);
      InsertMembers(init, m);
      var r := H.Insert(init, m);
      forall i | 0 <= i < |r| ensures r[i].sequence <= last.sequence {
        assert r[i] in r;
      }
    }
  }

  lemma {:induction false} InsertTallies(s: seq<Message>, m: Message, q: int)
    ensures Tally(H.Insert(s, m), q) == Tally(s, q) + if m.sequence == q then 1 else 0
  {
    if s == [] || s[|s| - 1].sequence <= m.sequence {
      TallySnoc(s, m, q);
    } else {
      var init, last := s[..|s| - 1], s[|s| - 1];
      InsertTallies(init, m, q);
      TallySnoc(H.Insert(init, m), last, q);
    }
  }

  lemma {:induction false} AscendingSorts(s: seq<Message>, q: int)
    ensures Sorted(H.Ascending(s)) && Tally(H.Ascending(s), q) == Tally(s, q)
  {
    if s != [] {
      var init, last := s[..|s| - 1], s[|s| - 1];
      AscendingSorts(init, q);
      InsertSorts(H.Ascending(init), last);
      InsertTallies(H.Ascending(init), last, q);
    }
  }

  /** The list checked for a conversation is its rows' numbers, each as often as it occurs, in ascending order. */
  lemma NumbersAreTheRows(messages: seq<Message>, conv: string, q: int)
    ensures multiset(Numbers(messages, conv))[q] == multiset(SequencesOf(ConvLog(messages, conv)))[q]
    ensures var r := Numbers(messages, conv); forall i, j :: 0 <= i < j < |r| ==> r[i] <= r[j]
  {
    hide ConvLog;
    var sorted := H.Ascending(ConvLog(messages, conv));
    AscendingSorts(ConvLog(messages, conv), q);
    TallyCounts(sorted, q);
    TallyCounts(ConvLog(messages, conv), q);
    assert Numbers(messages, conv) == SequencesOf(sorted);
  }

  /** Every reachable committed state of senders, worker and administrators is reported clean. */
  lemma ReachableIsClean(tr: seq<S.State>, i: nat, convs: seq<string>, now: real)
    requires S.Run(tr) && i < |tr|
    ensures AllAnomalies(tr[i].log.messages, convs) == [] && StuckCount(tr[i].out.outbox, now) == 0
  {
    var messages, outbox := tr[i].log.messages, tr[i].out.outbox;
    forall c ensures IsCounting(Numbers(messages, c)) {
      S.GaplessOrder(tr, i, c);
      H.AscendingStays(ConvLog(messages, c), 1);
    }
    NoAnomaliesIff(messages, convs);
    S.CrashSafe(tr, i);
    NoneStuckIff(outbox, now);
  }
}
