/**
 * The simple organisation dashboard: a searchable member list with the member
 * count, the empty state and the invite and launch buttons.
 */
module SimpleOrgDashboard {
  import opened Wrappers
  import opened Text
  import opened Lists
  import opened Org

  /** `filteredMembers` keeps exactly the members matching the search, in their order, and
      all of them when the search box is empty. */
  lemma FilteredMembersSpec(members: seq<TeamMember>, query: string)
    ensures IsSubsequence(FilterMembers(members, query), members)
    ensures forall m :: m in FilterMembers(members, query) <==> m in members && MemberMatches(m, query)
    ensures query == "" ==> FilterMembers(members, query) == members
  {
    var r := FilterMembers(members, query);
    forall m ensures m in r <==> m in members && MemberMatches(m, query) {
      if m in r {
        var i :| 0 <= i < |r| && r[i] == m;
        assert MemberMatches(r[i], query);
        SubsequenceMembers(r, members, i);
      }
    }
    if query == "" {
      FilterMembersEmptyQuery(members);
    }
  }

  /** Every element of a subsequence is an element of the whole. */
  lemma {:induction false} SubsequenceMembers(xs: seq<TeamMember>, ys: seq<TeamMember>, i: int)
    requires IsSubsequence(xs, ys) && 0 <= i < |xs|
    ensures xs[i] in ys
    decreases |ys|
  {
    if ys != [] {
      if xs[0] == ys[0] && IsSubsequence(xs[1..], ys[1..]) {
        if i > 0 {
          SubsequenceMembers(xs[1..], ys[1..], i - 1);
        }
      } else {
        SubsequenceMembers(xs, ys[1..], i);
      }
    }
  }

  /** The header's count and noun: over all members, whatever the search. */
  function HeaderLabel(members: seq<TeamMember>): (header: (nat, string))
    ensures header.0 == |members|
    ensures header.1 == "member" <==> |members| == 1
  {
    (|members|, MemberNoun(|members|))
  }

  /** The empty list's note and whether "Invite First Member" is offered. */
  datatype EmptyNote = EmptyNote(text: string, inviteFirst: bool)

  function EmptyView(members: seq<TeamMember>, currentUserId: string, query: string): (e: Option<EmptyNote>)
    ensures e.Some? <==> |FilterMembers(members, query)| == 0
    ensures e.Some? ==> e.value.text == (if query != "" then "No members found" else "No members yet")
    ensures e.Some? ==> (e.value.inviteFirst <==> query == "" && CanManage(members, currentUserId))
  {
    if |FilterMembers(members, query)| == 0 then
      Some(EmptyNote(if query != "" then "No members found" else "No members yet",
                     CanManage(members, currentUserId) && query == ""))
    else None
  }

  /** "Invite First Member" is never shown: with an empty search the list is empty only
      when there are no members at all, and then nobody is found to have the permission. */
  lemma InviteFirstNeverShown(members: seq<TeamMember>, currentUserId: string, query: string)
    requires EmptyView(members, currentUserId, query).Some?
    ensures !EmptyView(members, currentUserId, query).value.inviteFirst
  {
    if query == "" {
      FilterMembersEmptyQuery(members);
      assert members == [];
    }
  }
}
