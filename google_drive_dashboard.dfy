/**
 * The mobile "drive" dashboard: three tabs (properties, members, account), a
 * search box filtering the current tab's list, row menus, the empty state and
 * the floating action button.
 */
module GoogleDriveDashboard {
  import opened Wrappers
  import opened Text
  import opened Lists
  import opened Org

  datatype PropertyKind = Residential | Commercial

  function KindName(k: PropertyKind): string {
    match k
    case Residential => "residential"
    case Commercial => "commercial"
  }

  /** `Property`. */
  datatype Property = Property(id: string, name: string, kind: PropertyKind, units: int, address: string)

  /** `TabType`. */
  datatype Tab = PropertiesTab | MembersTab | AccountTab

  /** What `getFilteredData` returns: the properties tab's rows, the members tab's rows, or
      the account tab's empty list. */
  datatype Listing = PropertyRows(properties: seq<Property>) | MemberRows(members: seq<TeamMember>) | NoRows

  function Size(l: Listing): nat {
    match l
    case PropertyRows(ps) => |ps|
    case MemberRows(ms) => |ms|
    case NoRows => 0
  }

  /** The property search: name, address or type contains the query, ignoring case. */
  predicate PropertyMatches(p: Property, query: string) {
    MatchesQuery(p.name, query) || MatchesQuery(p.address, query) || MatchesQuery(KindName(p.kind), query)
  }

  /** `getFilteredData`. */
  function FilteredData(tab: Tab, properties: seq<Property>, members: seq<TeamMember>, query: string): (r: Listing)
    ensures tab == PropertiesTab <==> r.PropertyRows?
    ensures tab == MembersTab <==> r.MemberRows?
    ensures tab == AccountTab <==> r.NoRows?
    ensures r.PropertyRows? ==>
      && IsSubsequence(r.properties, properties)
      && (forall i :: 0 <= i < |r.properties| ==> PropertyMatches(r.properties[i], query))
      && (forall i :: 0 <= i < |properties| && PropertyMatches(properties[i], query) ==> properties[i] in r.properties)
    ensures r.MemberRows? ==> r.members == FilterMembers(members, query)
  {
    match tab
    case PropertiesTab => PropertyRows(Filter(properties, p => PropertyMatches(p, query)))
    case MembersTab => MemberRows(FilterMembers(members, query))
    case AccountTab => NoRows
  }

  /** With an empty query the properties and members tabs list everything, in order. */
  lemma EmptyQueryListsAll(tab: Tab, properties: seq<Property>, members: seq<TeamMember>)
    ensures tab == PropertiesTab ==> FilteredData(tab, properties, members, "") == PropertyRows(properties)
    ensures tab == MembersTab ==> FilteredData(tab, properties, members, "") == MemberRows(members)
  {
    forall i | 0 <= i < |properties| ensures PropertyMatches(properties[i], "") {
      EmptyQueryMatches(properties[i].name);
    }
    FilterMembersEmptyQuery(members);
  }

  /** The two actions the dashboard can offer. */
  datatype Action = AddProperty | InviteMember

  /** `getEmptyState` for the properties and members tabs. */
  datatype EmptyState = EmptyState(title: string, action: Option<Action>)

  function EmptyStateFor(tab: Tab, query: string, canManage: bool): (e: EmptyState)
    requires tab != AccountTab
    ensures e.action.Some? <==> query == "" && canManage
    ensures e.action.Some? ==> e.action.value == (if tab == PropertiesTab then AddProperty else InviteMember)
    ensures query != "" ==> e.title == (if tab == PropertiesTab then "No properties found" else "No members found")
    ensures query == "" ==> e.title == (if tab == PropertiesTab then "No properties yet" else "No members yet")
  {
    if tab == PropertiesTab then
      EmptyState(if query != "" then "No properties found" else "No properties yet",
                 if query == "" && canManage then Some(AddProperty) else None)
    else
      EmptyState(if query != "" then "No members found" else "No members yet",
                 if query == "" && canManage then Some(InviteMember) else None)
  }

  /** What the content area shows. */
  datatype Content =
    | AccountPanel
    | Empty(state: EmptyState)
    | Rows(listing: Listing)

  function RenderContent(tab: Tab, properties: seq<Property>, members: seq<TeamMember>,
                         currentUserId: string, query: string): (c: Content)
    ensures tab == AccountTab <==> c.AccountPanel?
    ensures c.Empty? <==> tab != AccountTab && Size(FilteredData(tab, properties, members, query)) == 0
    ensures c.Empty? ==> c.state == EmptyStateFor(tab, query, CanManage(members, currentUserId))
    ensures c.Rows? ==> c.listing == FilteredData(tab, properties, members, query)
  {
    if tab == AccountTab then AccountPanel
    else
      var data := FilteredData(tab, properties, members, query);
      if Size(data) == 0 then Empty(EmptyStateFor(tab, query, CanManage(members, currentUserId)))
      else Rows(data)
  }

  /** An empty-state action is offered only to managers, and only when nothing is searched. */
  lemma EmptyStateActionNeedsManager(tab: Tab, properties: seq<Property>, members: seq<TeamMember>,
                                     currentUserId: string, query: string)
    ensures var c := RenderContent(tab, properties, members, currentUserId, query);
      c.Empty? && c.state.action.Some? <==>
        tab != AccountTab && Size(FilteredData(tab, properties, members, query)) == 0 &&
        query == "" && CanManage(members, currentUserId)
  {
  }

  /** The members tab never offers "Invite Member" in its empty state: with an empty search
      the list is empty only when there are no members, and then nobody can manage. */
  lemma MembersEmptyStateNeverInvites(properties: seq<Property>, members: seq<TeamMember>,
                                      currentUserId: string, query: string)
    requires RenderContent(MembersTab, properties, members, currentUserId, query).Empty?
    ensures RenderContent(MembersTab, properties, members, currentUserId, query).state.action.None?
  {
    if query == "" {
      EmptyQueryListsAll(MembersTab, properties, members);
      assert members == [];
    }
  }

  /** The properties tab does offer "Add Property" to a manager with no properties. */
  lemma PropertiesEmptyStateOffersAdd(me: TeamMember)
    requires IsManager(me.role)
    ensures RenderContent(PropertiesTab, [], [me], me.id, "").state.action == Some(AddProperty)
  {
  }

  /** The property row's menu. */
  predicate ShowsPropertyMenu(members: seq<TeamMember>, currentUserId: string) {
    CanManage(members, currentUserId)
  }

  /** Managers get a menu on every property row and on every member row but their own;
      everyone else gets none. */
  lemma RowMenus(members: seq<TeamMember>, currentUserId: string, m: TeamMember)
    ensures ShowsMemberMenu(members, currentUserId, m) ==> ShowsPropertyMenu(members, currentUserId)
    ensures m.id == currentUserId ==> !ShowsMemberMenu(members, currentUserId, m)
    ensures ShowsPropertyMenu(members, currentUserId) && m.id != currentUserId ==>
      ShowsMemberMenu(members, currentUserId, m)
  {
  }

  /** The floating action button: on the properties and members tabs, for managers only. */
  function Fab(tab: Tab, canManage: bool): (a: Option<Action>)
    ensures a.Some? <==> canManage && tab != AccountTab
    ensures a == Some(AddProperty) <==> canManage && tab == PropertiesTab
    ensures a == Some(InviteMember) <==> canManage && tab == MembersTab
  {
    if canManage && (tab == PropertiesTab || tab == MembersTab) then
      Some(if tab == PropertiesTab then AddProperty else InviteMember)
    else
      assert !canManage || tab.AccountTab?;
      None
  }

  /** The button and the empty state never offer different actions on the same tab. */
  lemma FabAgreesWithEmptyState(tab: Tab, query: string, canManage: bool)
    requires tab != AccountTab
    ensures EmptyStateFor(tab, query, canManage).action.Some? ==>
      EmptyStateFor(tab, query, canManage).action == Fab(tab, canManage)
  {
  }
}
