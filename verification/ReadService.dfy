/** Read receipts and unread counts. */
module ReadService {
  import opened MessageLog
  import opened RunningMax

  datatype Participant = Participant(conv: string, user: string)

  class ReadService {
    /** last_read_sequence of each participant row. */
    var lastRead: map<Participant, int>

    constructor (lastRead: map<Participant, int>)
      ensures this.lastRead == lastRead
    {
      this.lastRead := lastRead;
    }

    /** mark_read: advance a known participant's position, never move it back; others stand. */
    method MarkRead(p: Participant, sequence: int) returns (position: int)
      modifies this
      ensures lastRead ==
        if p in old(lastRead) then old(lastRead)[p := Larger(old(lastRead)[p], sequence)] else old(lastRead)
      ensures position == if p in old(lastRead) then Larger(old(lastRead)[p], sequence) else 0
    {
      if p !in lastRead { return 0; }
      if sequence > lastRead[p] {
        lastRead := lastRead[p := sequence];
      }
      position := lastRead[p];
    }

    /** get_unread_count: others' undeleted messages above the position, which defaults to 0. */
    method GetUnreadCount(messages: seq<Message>, p: Participant) returns (count: nat)
      ensures count == Unread(messages, p, if p in lastRead then lastRead[p] else 0)
      ensures var last := if p in lastRead then lastRead[p] else 0;
              count == |set i | 0 <= i < |messages| && messages[i].conv == p.conv && messages[i].sequence > last
                                && messages[i].sender != p.user && !messages[i].deleted|
    {
      var last, i := if p in lastRead then lastRead[p] else 0, 0;
      count := 0;
      while i < |messages|
        invariant 0 <= i <= |messages| && count == Unread(messages[..i], p, last)
      {
        assert messages[..i + 1][..i] == messages[..i];
        if IsUnread(messages[i], p, last) { count := count + 1; }
        i := i + 1;
      }
      assert messages[..i] == messages;
      UnreadByColumns(messages, p, last);
    }
  }

  predicate IsUnread(m: Message, p: Participant, last: int) {
    m.conv == p.conv && m.sequence > last && m.sender != p.user && !m.deleted
  }

  function Unread(messages: seq<Message>, p: Participant, last: int): nat {
    if messages == [] then 0
    else Unread(messages[..|messages| - 1], p, last) + if IsUnread(messages[|messages| - 1], p, last) then 1 else 0
  }

  /** The count is the number of others' undeleted rows of the conversation above the position. */
  lemma {:induction false} UnreadCounts(messages: seq<Message>, p: Participant, last: int)
    ensures Unread(messages, p, last) ==
      |set i | 0 <= i < |messages| && IsUnread(messages[i], p, last)|
  {
    if messages != [] {
      var n, init := |messages| - 1, messages[..|messages| - 1];
      UnreadCounts(init, p, last);
      var before := set i | 0 <= i < n && IsUnread(init[i], p, last);
      var all := set i | 0 <= i < |messages| && IsUnread(messages[i], p, last);
      assert n !in before;
      assert all == if IsUnread(messages[n], p, last) then before + {n} else before;
    }
  }

  /** The same by the columns. */
  lemma UnreadByColumns(messages: seq<Message>, p: Participant, last: int)
    ensures Unread(messages, p, last) ==
      |set i | 0 <= i < |messages| && messages[i].conv == p.conv && messages[i].sequence > last
               && messages[i].sender != p.user && !messages[i].deleted|
  {
    UnreadCounts(messages, p, last);
    assert (set i | 0 <= i < |messages| && IsUnread(messages[i], p, last)) ==
      set i | 0 <= i < |messages| && messages[i].conv == p.conv && messages[i].sequence > last
              && messages[i].sender != p.user && !messages[i].deleted;
  }

  /** A receipt never raises the unread count. */
  lemma {:induction false} ReceiptNeverRaises(messages: seq<Message>, p: Participant, last: int, receipt: int)
    ensures Unread(messages, p, Larger(last, receipt)) <= Unread(messages, p, last)
  {
    if messages != [] { ReceiptNeverRaises(messages[..|messages| - 1], p, last, receipt); }
  }

  lemma {:induction false} NothingAbove(messages: seq<Message>, p: Participant, last: int)
    requires forall i :: 0 <= i < |messages| && messages[i].conv == p.conv ==> messages[i].sequence <= last
    ensures Unread(messages, p, last) == 0
  {
    if messages != [] { NothingAbove(messages[..|messages| - 1], p, last); }
  }

  /** Nothing is unread once the cursor has reached the end of the log. */
  lemma ReadToTheEnd(messages: seq<Message>, p: Participant, last: int)
    requires Gapless(messages) && last >= |ConvLog(messages, p.conv)|
    ensures Unread(messages, p, last) == 0
  {
    forall i | 0 <= i < |messages| && messages[i].conv == p.conv ensures messages[i].sequence <= last {
      assert HasSequence(messages, p.conv, messages[i].sequence);
      TakenNumbers(messages, p.conv, messages[i].sequence);
    }
    NothingAbove(messages, p, last);
  }

  /**
   A commit to the conversation raises the count by one exactly if the message is another
   user's and the cursor has not run past the log, and otherwise leaves it; a receipt may
   name a number beyond the log, and then hides the messages up to it.
   */
  lemma CommitRaisesIff(s: Log, k: nat, p: Participant, last: int)
    requires Inv(s) && Enabled(s, Commit(k)) && s.calls[k].stage.isNew && !s.calls[k].stage.msg.deleted
    ensures var m, n := s.calls[k].stage.msg, |ConvLog(s.messages, p.conv)|;
            var more := Unread(Do(s, Commit(k)).messages, p, last) - Unread(s.messages, p, last);
            more == if m.conv == p.conv && m.sender != p.user && last <= n then 1 else 0
  {
    var m := s.calls[k].stage.msg;
    assert CallOk(s.messages, s.calls[k]);
    assert (s.messages + [m])[..|s.messages|] == s.messages;
  }
}
