/** The gathering chat's message list, components/chat/chat-message-list.tsx:
    how the sender of a realtime message is resolved, the de-duplicating
    append, and which messages continue the previous sender's run. */
module Chat {
  import opened Common
  import opened Seqs

  /** The sender details a message is shown with. */
  datatype ChatUser = ChatUser(id: UserId, name: Option<string>, avatarUrl: Option<string>)

  /** A chat message; `user` is attached on the client, when known. */
  datatype Message = Message(id: nat, content: string, createdAt: int, userId: UserId, user: Option<ChatUser>)

  function MessageId(m: Message): nat {
    m.id
  }

  /** `messages.find(m => m.user_id === userId)`: the first message by that user. */
  function FirstBy(messages: seq<Message>, userId: UserId): (r: Option<Message>)
    ensures r.None? <==> forall m :: m in messages ==> m.userId != userId
    ensures r.Some? ==> exists i :: 0 <= i < |messages| && messages[i] == r.value && r.value.userId == userId
                                    && forall k :: 0 <= k < i ==> messages[k].userId != userId
  {
    if messages == [] then None
    else if messages[0].userId == userId then Some(messages[0])
    else
      var r := FirstBy(messages[1..], userId);
      assert forall m :: m in messages[1..] ==> m in messages;
      assert messages == [messages[0]] + messages[1..];
      if r.Some? then
        ghost var i :| 0 <= i < |messages[1..]| && messages[1..][i] == r.value && r.value.userId == userId
                       && forall k :: 0 <= k < i ==> messages[1..][k].userId != userId;
        assert messages[i + 1] == r.value;
        assert forall k :: 0 <= k < i + 1 ==> messages[k].userId != userId by {
          forall k | 0 <= k < i + 1 ensures messages[k].userId != userId {
            if k > 0 { assert messages[k] == messages[1..][k - 1]; }
          }
        }
        r
      else r
  }

  /** The order in which the sender of `incoming` is resolved: the current
      user for their own messages; else the user attached to the first earlier
      message by the same sender, when that message has one; else whatever the
      profile lookup returned (`fetched`, absent when it found nothing). */
  predicate ResolvedAs(currentUser: ChatUser, messages: seq<Message>, incoming: Message,
                       fetched: Option<ChatUser>, sender: Option<ChatUser>)
  {
    var earlier := FirstBy(messages, incoming.userId);
    && (incoming.userId == currentUser.id ==> sender == Some(currentUser))
    && (incoming.userId != currentUser.id && earlier.Some? && earlier.value.user.Some? ==>
          sender == earlier.value.user)
    && (incoming.userId != currentUser.id && (earlier.None? || earlier.value.user.None?) ==>
          sender == fetched)
  }

  /** The sender of `incoming`, assigned branch by branch. */
  method ResolveSender(currentUser: ChatUser, messages: seq<Message>, incoming: Message, fetched: Option<ChatUser>)
    returns (sender: Option<ChatUser>)
    ensures ResolvedAs(currentUser, messages, incoming, fetched, sender)
  {
    sender := None;
    if incoming.userId == currentUser.id {
      sender := Some(currentUser);
    } else {
      var existing := FirstBy(messages, incoming.userId);
      if existing.Some? && existing.value.user.Some? {
        sender := existing.value.user;
      } else if fetched.Some? {
        sender := fetched;
      }
    }
  }

  /** The state update of the INSERT handler: a message whose id is already
      listed is dropped, anything else goes at the end with its sender. */
  function Appended(prev: seq<Message>, incoming: Message, sender: Option<ChatUser>): (r: seq<Message>)
    ensures HasKey(prev, MessageId, incoming.id) ==> r == prev
    ensures !HasKey(prev, MessageId, incoming.id) ==> r == prev + [incoming.(user := sender)]
  {
    if exists i :: 0 <= i < |prev| && prev[i].id == incoming.id then prev
    else prev + [incoming.(user := sender)]
  }

  /** The append never lists an id twice. */
  lemma AppendedKeepsIdsUnique(prev: seq<Message>, incoming: Message, sender: Option<ChatUser>)
    requires UniqueBy(prev, MessageId)
    ensures UniqueBy(Appended(prev, incoming, sender), MessageId)
  {
    if !HasKey(prev, MessageId, incoming.id) {
      AppendKeepsUnique(prev, incoming.(user := sender), MessageId);
    }
  }

  /** The same message delivered twice is listed once. */
  lemma RedeliveryIsIgnored(prev: seq<Message>, incoming: Message, s1: Option<ChatUser>, s2: Option<ChatUser>)
    ensures var once := Appended(prev, incoming, s1);
            Appended(once, incoming, s2) == once
  {
    var once := Appended(prev, incoming, s1);
    if !HasKey(prev, MessageId, incoming.id) {
      assert once[|prev|].id == incoming.id;
    }
  }

  /** `isContinuous` of the message at `index`: it directly follows a message by the same sender. */
  predicate IsContinuous(messages: seq<Message>, index: nat)
    requires index < |messages|
  {
    index > 0 && messages[index - 1].userId == messages[index].userId
  }

  /** The first message never continues a run. */
  lemma FirstIsNeverContinuous(messages: seq<Message>)
    requires |messages| > 0
    ensures !IsContinuous(messages, 0)
  {
  }

  /** Appending a message leaves how every earlier message is shown unchanged,
      and the new one continues exactly when the last sender sends again. */
  lemma {:induction false} AppendKeepsContinuity(prev: seq<Message>, m: Message)
    ensures forall i :: 0 <= i < |prev| ==> IsContinuous(prev + [m], i) == IsContinuous(prev, i)
    ensures IsContinuous(prev + [m], |prev|) <==> |prev| > 0 && prev[|prev| - 1].userId == m.userId
  {
    var after := prev + [m];
    forall i | 0 <= i < |prev| ensures IsContinuous(after, i) == IsContinuous(prev, i) {
      assert after[i] == prev[i];
      if i > 0 { assert after[i - 1] == prev[i - 1]; }
    }
  }

  class ChatMessageList {
    const currentUser: ChatUser
    var messages: seq<Message>

    constructor (currentUser: ChatUser, initialMessages: seq<Message>)
      ensures this.currentUser == currentUser && messages == initialMessages
    {
      this.currentUser := currentUser;
      messages := initialMessages;
    }

    /** The realtime INSERT handler, with `fetched` what the profile lookup
        returns should it be made. */
    method OnInsert(incoming: Message, fetched: Option<ChatUser>)
      modifies this`messages
      ensures HasKey(old(messages), MessageId, incoming.id) ==> messages == old(messages)
      ensures !HasKey(old(messages), MessageId, incoming.id) ==>
                && |messages| == |old(messages)| + 1
                && messages[..|old(messages)|] == old(messages)
                && messages[|old(messages)|] == incoming.(user := messages[|old(messages)|].user)
                && ResolvedAs(currentUser, old(messages), incoming, fetched, messages[|old(messages)|].user)
      ensures UniqueBy(old(messages), MessageId) ==> UniqueBy(messages, MessageId)
    {
      var sender := ResolveSender(currentUser, messages, incoming, fetched);
      if UniqueBy(messages, MessageId) {
        AppendedKeepsIdsUnique(messages, incoming, sender);
      }
      messages := Appended(messages, incoming, sender);
    }
  }
}
