/**
 * The organisation vocabulary the dashboards share: business types, member
 * roles, the app each type opens, the member search and the "can manage"
 * permission.
 */
module Org {
  import opened Wrappers
  import opened Text
  import opened Lists

  /** `'property_management' | 'hotel' | 'hybrid'`. */
  datatype OrgType = PropertyManagement | Hotel | Hybrid

  function TypeName(t: OrgType): string {
    match t
    case PropertyManagement => "property_management"
    case Hotel => "hotel"
    case Hybrid => "hybrid"
  }

  /** `'owner' | 'admin' | 'staff' | 'member'`. */
  datatype Role = Owner | Admin | Staff | Member

  function RoleName(r: Role): string {
    match r
    case Owner => "owner"
    case Admin => "admin"
    case Staff => "staff"
    case Member => "member"
  }

  /** `['owner', 'admin'].includes(role)`. */
  predicate IsManager(r: Role) {
    r == Owner || r == Admin
  }

  const StayUrl := "stay.tobiira.io"
  const OneUrl := "one.tobiira.io"

  /** `getAppUrl`: hotels open Tobiira Stay, every other type Tobiira One. */
  function AppUrl(t: OrgType): (url: string)
    ensures url == StayUrl <==> t == Hotel
    ensures url == StayUrl || url == OneUrl
  {
    if t == Hotel then StayUrl else OneUrl
  }

  /** `getAppName`. */
  function AppName(t: OrgType): (name: string)
    ensures name == "Tobiira Stay" <==> t == Hotel
    ensures name == "Tobiira Stay" || name == "Tobiira One"
  {
    if t == Hotel then "Tobiira Stay" else "Tobiira One"
  }

  /** The launch button's name and the app address always point at the same app. */
  lemma AppNameMatchesUrl(t: OrgType)
    ensures AppName(t) == "Tobiira Stay" <==> AppUrl(t) == StayUrl
  {
  }

  /** `n === 1 ? 'member' : 'members'`, and `'member' + (n !== 1 ? 's' : '')`. */
  function MemberNoun(n: int): (w: string)
    ensures w == "member" <==> n == 1
    ensures w == "members" <==> n != 1
  {
    if n == 1 then "member" else "members"
  }

  /** The dashboards' `Member`. */
  datatype TeamMember = TeamMember(id: string, name: string, email: string, role: Role)

  /** The member search: name, email or role contains the query, ignoring case. */
  predicate MemberMatches(m: TeamMember, query: string) {
    MatchesQuery(m.name, query) || MatchesQuery(m.email, query) || MatchesQuery(RoleName(m.role), query)
  }

  function FilterMembers(members: seq<TeamMember>, query: string): (r: seq<TeamMember>)
    ensures IsSubsequence(r, members)
    ensures forall i :: 0 <= i < |r| ==> MemberMatches(r[i], query)
    ensures forall i :: 0 <= i < |members| && MemberMatches(members[i], query) ==> members[i] in r
  {
    Filter(members, m => MemberMatches(m, query))
  }

  /** An empty query keeps every member, in order. */
  lemma FilterMembersEmptyQuery(members: seq<TeamMember>)
    ensures FilterMembers(members, "") == members
  {
    forall i | 0 <= i < |members| ensures MemberMatches(members[i], "") {
      EmptyQueryMatches(members[i].name);
    }
  }

  /** `members.find(m => m.id === currentUserId)`. */
  function CurrentMember(members: seq<TeamMember>, userId: string): Option<TeamMember> {
    Find(members, (m: TeamMember) => m.id == userId)
  }

  /** `canManage` / `canInvite`: the current user is found and is an owner or an admin. */
  predicate CanManage(members: seq<TeamMember>, userId: string) {
    var me := CurrentMember(members, userId);
    me.Some? && IsManager(me.value.role)
  }

  /** The permission is decided by the first member carrying the user's id. */
  lemma CanManageIff(members: seq<TeamMember>, userId: string)
    ensures CanManage(members, userId) <==>
      exists i :: 0 <= i < |members| && members[i].id == userId && IsManager(members[i].role) &&
        forall j :: 0 <= j < i ==> members[j].id != userId
  {
    var p := (m: TeamMember) => m.id == userId;
    FindSatisfies(members, p, (m: TeamMember) => IsManager(m.role));
    assert forall i :: IsFirst(members, p, i) <==>
      0 <= i < |members| && members[i].id == userId && forall j :: 0 <= j < i ==> members[j].id != userId;
  }

  /** A user who is not a member at all can manage nothing. */
  lemma OutsiderCannotManage(members: seq<TeamMember>, userId: string)
    requires forall i :: 0 <= i < |members| ==> members[i].id != userId
    ensures !CanManage(members, userId)
  {
  }

  /** The row menu on a member: only for managers, and never on their own row. */
  predicate ShowsMemberMenu(members: seq<TeamMember>, userId: string, m: TeamMember) {
    CanManage(members, userId) && m.id != userId
  }

  /** The member menu appears exactly for managers looking at someone else's row; a user
      outside the list, or an ordinary member, never sees it. */
  lemma MemberMenuRule(members: seq<TeamMember>, userId: string, m: TeamMember)
    ensures ShowsMemberMenu(members, userId, m) <==>
      m.id != userId &&
      exists i :: 0 <= i < |members| && members[i].id == userId && IsManager(members[i].role) &&
        forall j :: 0 <= j < i ==> members[j].id != userId
  {
    CanManageIff(members, userId);
  }
}
