/**
 * The organisation dashboard: active members, the per-role tally, the
 * owner-or-admin permission and what the header, activity line and action
 * buttons show.
 */
module OrgDashboard {
  import opened Wrappers
  import opened Lists
  import opened Org

  /** `OrganizationMember`, with the fields the dashboard's logic reads. */
  datatype OrgMember = OrgMember(userId: string, email: string, fullName: string, role: Role, isActive: bool)

  /** `members.filter(m => m.isActive)`. */
  function ActiveMembers(members: seq<OrgMember>): (r: seq<OrgMember>)
    ensures IsSubsequence(r, members)
    ensures forall i :: 0 <= i < |r| ==> r[i].isActive
    ensures forall i :: 0 <= i < |members| && members[i].isActive ==> members[i] in r
  {
    Filter(members, (m: OrgMember) => m.isActive)
  }

  /** Number of members of `ms` with role `r`: the reference count, read front to back. */
  function CountRole(ms: seq<OrgMember>, r: Role): (n: nat)
    ensures n <= |ms|
  {
    if ms == [] then 0 else (if ms[0].role == r then 1 else 0) + CountRole(ms[1..], r)
  }

  /** The tally's entry for a role, `acc[role] || 0`. */
  function Get(tally: map<Role, nat>, r: Role): nat {
    if r in tally then tally[r] else 0
  }

  /** The `reduce` that builds `membersByRole`: members are added one by one, in order. */
  function Tally(ms: seq<OrgMember>): map<Role, nat>
    decreases |ms|
  {
    if ms == [] then map[]
    else
      var acc := Tally(ms[..|ms| - 1]);
      var r := ms[|ms| - 1].role;
      acc[r := Get(acc, r) + 1]
  }

  /** `membersByRole`, over the active members. */
  function MembersByRole(members: seq<OrgMember>): map<Role, nat> {
    Tally(ActiveMembers(members))
  }

  lemma {:induction false} CountRoleSnoc(ms: seq<OrgMember>, m: OrgMember, r: Role)
    ensures CountRole(ms + [m], r) == CountRole(ms, r) + (if m.role == r then 1 else 0)
    decreases |ms|
  {
    if ms == [] {
      assert (ms + [m])[1..] == [];
    } else {
      assert (ms + [m])[1..] == ms[1..] + [m];
      CountRoleSnoc(ms[1..], m, r);
    }
  }

  /** The tally has an entry exactly for the roles present, holding how many members have it. */
  lemma {:induction false} TallyCounts(ms: seq<OrgMember>, r: Role)
    ensures r in Tally(ms) <==> CountRole(ms, r) > 0
    ensures Get(Tally(ms), r) == CountRole(ms, r)
    decreases |ms|
  {
    if ms != [] {
      var init := ms[..|ms| - 1];
      var m := ms[|ms| - 1];
      assert ms == init + [m];
      TallyCounts(init, r);
      CountRoleSnoc(init, m, r);
    }
  }

  /** Every member has exactly one of the four roles. */
  lemma {:induction false} RoleCountsSum(ms: seq<OrgMember>)
    ensures CountRole(ms, Owner) + CountRole(ms, Admin) + CountRole(ms, Staff) + CountRole(ms, Member) == |ms|
    decreases |ms|
  {
    if ms != [] {
      RoleCountsSum(ms[1..]);
    }
  }

  /** `membersByRole` counts the active members per role: the counts add up to the active
      count, and a role no active member has gets no entry. */
  lemma MembersByRoleCounts(members: seq<OrgMember>)
    ensures var t := MembersByRole(members);
      Get(t, Owner) + Get(t, Admin) + Get(t, Staff) + Get(t, Member) == |ActiveMembers(members)|
    ensures forall r :: r in MembersByRole(members) <==> CountRole(ActiveMembers(members), r) > 0
    ensures forall r :: Get(MembersByRole(members), r) == CountRole(ActiveMembers(members), r)
  {
    var active := ActiveMembers(members);
    forall r ensures (r in Tally(active) <==> CountRole(active, r) > 0) &&
                     Get(Tally(active), r) == CountRole(active, r) {
      TallyCounts(active, r);
    }
    RoleCountsSum(active);
  }

  /** Inactive members are never counted in the tally. */
  lemma InactiveNotTallied(members: seq<OrgMember>)
    requires forall i :: 0 <= i < |members| ==> !members[i].isActive
    ensures MembersByRole(members) == map[]
  {
    assert ActiveMembers(members) == [];
  }

  /** `isOwnerOrAdmin`. */
  predicate IsOwnerOrAdmin(members: seq<OrgMember>, currentUserId: string) {
    var me := Find(members, (m: OrgMember) => m.userId == currentUserId);
    me.Some? && IsManager(me.value.role)
  }

  /** The permission is decided by the first member carrying the user's id, whether or not
      that member is active. */
  lemma IsOwnerOrAdminIff(members: seq<OrgMember>, currentUserId: string)
    ensures IsOwnerOrAdmin(members, currentUserId) <==>
      exists i :: 0 <= i < |members| && members[i].userId == currentUserId && IsManager(members[i].role) &&
        forall j :: 0 <= j < i ==> members[j].userId != currentUserId
  {
    var p := (m: OrgMember) => m.userId == currentUserId;
    FindSatisfies(members, p, (m: OrgMember) => IsManager(m.role));
    assert forall i :: IsFirst(members, p, i) <==>
      0 <= i < |members| && members[i].userId == currentUserId &&
      forall j :: 0 <= j < i ==> members[j].userId != currentUserId;
  }

  /** The header's noun next to the active count. */
  function HeaderNoun(members: seq<OrgMember>): (w: string)
    ensures w == "member" <==> |ActiveMembers(members)| == 1
  {
    MemberNoun(|ActiveMembers(members)|)
  }

  /** The "N member(s) joined" activity line: its count and noun, shown only with more than
      one member. It counts `members`, inactive ones included. */
  function JoinedLine(members: seq<OrgMember>): (line: Option<(nat, string)>)
    ensures line.Some? <==> |members| > 1
    ensures line.Some? ==> line.value.0 == |members| - 1 && line.value.1 == MemberNoun(line.value.0)
  {
    if |members| > 1 then
      Some((|members| - 1, if |members| > 2 then "members" else "member"))
    else None
  }

  /** The activity line depends on the number of members only, not on who is active. */
  lemma JoinedLineCountsInactive(a: seq<OrgMember>, b: seq<OrgMember>)
    requires |a| == |b|
    ensures JoinedLine(a) == JoinedLine(b)
  {
  }

  /** The quick-action buttons. */
  datatype QuickAction = InviteMember | ViewMembers | Settings

  function QuickActions(members: seq<OrgMember>, currentUserId: string): (r: seq<QuickAction>)
    ensures ViewMembers in r
    ensures InviteMember in r <==> IsOwnerOrAdmin(members, currentUserId)
    ensures Settings in r <==> IsOwnerOrAdmin(members, currentUserId)
  {
    var manage := IsOwnerOrAdmin(members, currentUserId);
    (if manage then [InviteMember] else []) + [ViewMembers] + (if manage then [Settings] else [])
  }

  /** The members tab's "Invite New Member" button. */
  predicate ShowsInviteButton(members: seq<OrgMember>, currentUserId: string) {
    IsOwnerOrAdmin(members, currentUserId)
  }

  /** Every way to invite is behind the same permission. */
  lemma InviteNeedsPermission(members: seq<OrgMember>, currentUserId: string)
    ensures ShowsInviteButton(members, currentUserId) <==> InviteMember in QuickActions(members, currentUserId)
  {
  }
}
