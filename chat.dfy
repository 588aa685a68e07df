/**
 * The chat log: messages, the watermark of the last message from someone
 * else, the unread count derived from it, and the badge on the chat button.
 */
module Chat {
  import opened Optional
  import opened Text

  /** The sender name of the local user's own messages. */
  const You: string := "You"

  /** A chat message. Its `time` stamp is left out of the model. */
  datatype Message = Message(id: int, sender: string, content: string)

  /** The three messages the session starts with, ids 0, 1 and 2. */
  const SeedMessages: seq<Message> := [
    Message(0, "John Doe", "Hey everyone, is the meeting starting soon?"),
    Message(1, "Jane Smith", "Yes, I'm here and ready!"),
    Message(2, You, "Great, let's begin the meeting.")
  ]

  /** The id of every message is its position in the log. */
  predicate IdsArePositions(msgs: seq<Message>) {
    forall i :: 0 <= i < |msgs| ==> msgs[i].id == i
  }

  predicate StrictlyIncreasingIds(msgs: seq<Message>) {
    forall i, j :: 0 <= i < j < |msgs| ==> msgs[i].id < msgs[j].id
  }

  lemma PositionalIdsIncrease(msgs: seq<Message>)
    requires IdsArePositions(msgs)
    ensures StrictlyIncreasingIds(msgs)
  {
  }

  /** Appending a message numbered by the log's length keeps ids positional. */
  lemma AppendKeepsPositions(msgs: seq<Message>, m: Message)
    requires IdsArePositions(msgs) && m.id == |msgs|
    ensures IdsArePositions(msgs + [m])
  {
  }

  predicate FromOther(m: Message) { m.sender != You }

  /**
   * `getLastOtherMessageId`: `Math.max(0, ...ids of messages not sent by "You")`.
   */
  function LastOtherMessageId(msgs: seq<Message>): (r: int)
    ensures r >= 0
    ensures forall i :: 0 <= i < |msgs| && FromOther(msgs[i]) ==> msgs[i].id <= r
    ensures r == 0 || exists i :: 0 <= i < |msgs| && FromOther(msgs[i]) && msgs[i].id == r
  {
    if msgs == [] then 0
    else
      var n := |msgs| - 1;
      var rest := LastOtherMessageId(msgs[..n]);
      assert forall k :: 0 <= k < n ==> msgs[k] == msgs[..n][k];
      if FromOther(msgs[n]) && msgs[n].id > rest then msgs[n].id else rest
  }

  predicate IsUnread(m: Message, watermark: int) { FromOther(m) && m.id > watermark }

  /** `unreadCount`: the number of messages from others with an id above the watermark. */
  function UnreadCount(msgs: seq<Message>, watermark: int): (r: nat)
    ensures r <= |msgs|
    ensures r == 0 <== forall i :: 0 <= i < |msgs| ==> !IsUnread(msgs[i], watermark)
  {
    if msgs == [] then 0
    else
      var n := |msgs| - 1;
      assert forall k :: 0 <= k < n ==> msgs[k] == msgs[..n][k];
      UnreadCount(msgs[..n], watermark) + (if IsUnread(msgs[n], watermark) then 1 else 0)
  }

  lemma AppendedUnread(msgs: seq<Message>, m: Message, watermark: int)
    ensures UnreadCount(msgs + [m], watermark) ==
            UnreadCount(msgs, watermark) + (if IsUnread(m, watermark) then 1 else 0)
  {
    assert (msgs + [m])[..|msgs|] == msgs;
  }

  /** A message sent by "You" never changes the unread count. */
  lemma OwnMessageNotUnread(msgs: seq<Message>, m: Message, watermark: int)
    requires m.sender == You
    ensures UnreadCount(msgs + [m], watermark) == UnreadCount(msgs, watermark)
  {
    AppendedUnread(msgs, m, watermark);
  }

  /** A message from someone else above the watermark raises the unread count by exactly one. */
  lemma OtherMessageUnread(msgs: seq<Message>, m: Message, watermark: int)
    requires FromOther(m) && m.id > watermark
    ensures UnreadCount(msgs + [m], watermark) == UnreadCount(msgs, watermark) + 1
  {
    AppendedUnread(msgs, m, watermark);
  }

  /** Nothing is unread with a watermark at or above every id from others. */
  lemma {:induction false} NothingUnreadAboveAll(msgs: seq<Message>, watermark: int)
    requires forall i :: 0 <= i < |msgs| && FromOther(msgs[i]) ==> msgs[i].id <= watermark
    ensures UnreadCount(msgs, watermark) == 0
  {
    if msgs != [] {
      var n := |msgs| - 1;
      assert forall k :: 0 <= k < n ==> msgs[..n][k] == msgs[k];
      NothingUnreadAboveAll(msgs[..n], watermark);
    }
  }

  /** Opening the chat recomputes the watermark, after which nothing is unread. */
  lemma MarkReadClearsUnread(msgs: seq<Message>)
    ensures UnreadCount(msgs, LastOtherMessageId(msgs)) == 0
  {
    NothingUnreadAboveAll(msgs, LastOtherMessageId(msgs));
  }

  /** A message from "You" does not move the watermark. */
  lemma OwnMessageKeepsWatermark(msgs: seq<Message>, m: Message)
    requires m.sender == You
    ensures LastOtherMessageId(msgs + [m]) == LastOtherMessageId(msgs)
  {
    assert (msgs + [m])[..|msgs|] == msgs;
  }

  /** `messages.filter((msg) => msg.sender !== "You")`, the list the bottom bar is given. */
  function OthersMessages(msgs: seq<Message>): (r: seq<Message>)
    ensures |r| <= |msgs|
    ensures forall i :: 0 <= i < |r| ==> FromOther(r[i])
    ensures r == [] <==> forall i :: 0 <= i < |msgs| ==> !FromOther(msgs[i])
  {
    if msgs == [] then []
    else
      var n := |msgs| - 1;
      var rest := OthersMessages(msgs[..n]);
      assert forall i :: 0 <= i < n ==> msgs[i] == msgs[..n][i];
      rest + (if FromOther(msgs[n]) then [msgs[n]] else [])
  }

  /**
   * The filter keeps exactly the messages from others, each as often as it
   * occurs in the log, so its length is the number of such messages.
   */
  lemma {:induction false} OthersMessagesCounts(msgs: seq<Message>)
    ensures forall m :: m in OthersMessages(msgs) <==> m in msgs && FromOther(m)
    ensures forall m :: multiset(OthersMessages(msgs))[m] == if FromOther(m) then multiset(msgs)[m] else 0
  {
    if msgs != [] {
      var n := |msgs| - 1;
      OthersMessagesCounts(msgs[..n]);
      assert msgs == msgs[..n] + [msgs[n]];
    }
  }

  /** The filter keeps the log's order: a new message extends the list exactly when it is from someone else. */
  lemma OthersMessagesAppend(msgs: seq<Message>, m: Message)
    ensures OthersMessages(msgs + [m]) == OthersMessages(msgs) + (if FromOther(m) then [m] else [])
  {
    assert (msgs + [m])[..|msgs|] == msgs;
  }

  /** Two messages from others followed by one's own, the shape of the seed log. */
  lemma OthersOfThree(m0: Message, m1: Message, m2: Message)
    requires FromOther(m0) && FromOther(m1) && !FromOther(m2)
    ensures OthersMessages([m0, m1, m2]) == [m0, m1]
  {
    OthersMessagesAppend([], m0);
    assert [] + [m0] == [m0];
    OthersMessagesAppend([m0], m1);
    assert [m0] + [m1] == [m0, m1];
    OthersMessagesAppend([m0, m1], m2);
    assert [m0, m1] + [m2] == [m0, m1, m2];
  }

  /** The mounted chat button shows "2": two of the three seed messages are from others. */
  lemma SeedBadge()
    ensures |OthersMessages(SeedMessages)| == 2
    ensures Badge(SeedMessages) == Some("2")
  {
    OthersOfThree(SeedMessages[0], SeedMessages[1], SeedMessages[2]);
    assert DecimalString(2) == "2";
  }

  /** The unread count never exceeds the number of messages from others, which is what the badge shows. */
  lemma {:induction false} UnreadAtMostOthers(msgs: seq<Message>, watermark: int)
    ensures UnreadCount(msgs, watermark) <= |OthersMessages(msgs)|
  {
    if msgs != [] {
      UnreadAtMostOthers(msgs[..|msgs| - 1], watermark);
    }
  }

  /** The badge text for a list of `n` messages: "99+" from 99 on, else the decimal count. */
  function BadgeLabel(n: nat): (s: string)
    ensures s == "99+" <==> n >= 99
    ensures n < 99 ==> 1 <= |s| <= 2 && (forall i :: 0 <= i < |s| ==> IsDigit(s[i])) && ParseDecimal(s) == n
    ensures n < 99 ==> (s[0] == '0' ==> n == 0)
  {
    if n >= 99 then "99+"
    else
      DecimalRoundTrip(n);
      DecimalString(n)
  }

  /** The chat button's badge: shown only when the list it is given is non-empty. */
  function Badge(msgs: seq<Message>): (r: Option<string>)
    ensures r.Some? <==> exists i :: 0 <= i < |msgs| && FromOther(msgs[i])
    ensures r.Some? ==> r.value == BadgeLabel(|OthersMessages(msgs)|)
  {
    var others := OthersMessages(msgs);
    if |others| > 0 then Some(BadgeLabel(|others|)) else None
  }
}
