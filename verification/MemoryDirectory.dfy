/**
 server/src/directory/memory_directory.ts: conversation membership, indexed both
 ways, and the decisions that server/src/protocol/authorization_policy.ts takes
 from it.
 */
module MemoryDirectory {

  // An account's conversations keep their insertion order.
  datatype Directory = Directory(
    conversationMembers: map<string, set<string>>, accountConversations: map<string, seq<string>>)
  {
    predicate IsMember(c: string, account: string) {
      c in conversationMembers && account in conversationMembers[c]
    }

    function ConversationsOf(account: string): seq<string> {
      if account in accountConversations then accountConversations[account] else []
    }

    function AddMember(c: string, account: string): Directory {
      var members := if c in conversationMembers then conversationMembers[c] else {};
      var listed := ConversationsOf(account);
      Directory(conversationMembers[c := members + {account}],
                accountConversations[account := if c in listed then listed else listed + [c]])
    }

    // canSendMessage and canReadConversation of an authenticated session.
    predicate MayUse(c: string, account: string) {
      IsMember(c, account)
    }

    // The two indexes are inverse, and no conversation is listed twice.
    ghost predicate Inverse() {
      && (forall c, account :: IsMember(c, account) <==> c in ConversationsOf(account))
      && (forall account, i, j :: 0 <= i < j < |ConversationsOf(account)| ==>
            ConversationsOf(account)[i] != ConversationsOf(account)[j])
    }
  }

  const NOBODY := Directory(map[], map[])

  class MemoryDirectory {
    var conversationMembers: map<string, set<string>>
    var accountConversations: map<string, seq<string>>

    function Abs(): Directory
      reads this
    {
      Directory(conversationMembers, accountConversations)
    }

    constructor ()
      ensures Abs() == NOBODY
    {
      conversationMembers, accountConversations := map[], map[];
    }

    method AddConversationMember(c: string, account: string)
      modifies this
      ensures Abs() == old(Abs()).AddMember(c, account)
    {
      if c !in conversationMembers {
        conversationMembers := conversationMembers[c := {}];
      }
      conversationMembers := conversationMembers[c := conversationMembers[c] + {account}];
      if account !in accountConversations {
        accountConversations := accountConversations[account := []];
      }
      if c !in accountConversations[account] {
        accountConversations := accountConversations[account := accountConversations[account] + [c]];
      }
    }
  }

  lemma AddMemberInverse(d: Directory, c: string, account: string)
    requires d.Inverse()
    ensures d.AddMember(c, account).Inverse()
    ensures forall e, other :: d.AddMember(c, account).IsMember(e, other) <==>
      d.IsMember(e, other) || (e == c && other == account)
  {
    var after := d.AddMember(c, account);
    forall other
      ensures after.ConversationsOf(other)
           == if other == account && c !in d.ConversationsOf(other) then d.ConversationsOf(other) + [c]
              else d.ConversationsOf(other)
    {
    }
  }
}
