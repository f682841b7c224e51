/**
 * The organisation switcher list: a search over name, type and role, the
 * empty-state text, the current-organisation marker, the member count and
 * the launch link of each row.
 */
module OrganizationList {
  import opened Wrappers
  import opened Text
  import opened Lists
  import opened Org

  /** The list's `Organization`. */
  datatype OrgEntry = OrgEntry(id: string, name: string, orgType: OrgType, role: Role, memberCount: nat, isActive: bool)

  predicate EntryMatches(o: OrgEntry, query: string) {
    MatchesQuery(o.name, query) || MatchesQuery(TypeName(o.orgType), query) || MatchesQuery(RoleName(o.role), query)
  }

  /** `filteredOrganizations`. */
  function FilterOrganizations(orgs: seq<OrgEntry>, query: string): (r: seq<OrgEntry>)
    ensures IsSubsequence(r, orgs)
    ensures forall i :: 0 <= i < |r| ==> EntryMatches(r[i], query)
    ensures forall i :: 0 <= i < |orgs| && EntryMatches(orgs[i], query) ==> orgs[i] in r
  {
    Filter(orgs, o => EntryMatches(o, query))
  }

  /** An empty search keeps every organisation, in order. */
  lemma EmptyQueryKeepsAll(orgs: seq<OrgEntry>)
    ensures FilterOrganizations(orgs, "") == orgs
  {
    forall i | 0 <= i < |orgs| ensures EntryMatches(orgs[i], "") {
      EmptyQueryMatches(orgs[i].name);
    }
  }

  /** One rendered row. */
  datatype Row = Row(org: OrgEntry, current: bool, appUrl: string, countNoun: string)

  function RowFor(o: OrgEntry, currentId: Option<string>): (row: Row)
    ensures row.org == o
    ensures row.current <==> currentId == Some(o.id)
    ensures row.countNoun == "member" <==> o.memberCount == 1
    ensures row.appUrl == AppUrl(o.orgType)
  {
    Row(o, currentId == Some(o.id), AppUrl(o.orgType), MemberNoun(o.memberCount))
  }

  /** What the list shows: an empty-state title and subtitle, or the rows. */
  datatype View = EmptyList(title: string, subtitle: string) | Rows(rows: seq<Row>)

  function Render(orgs: seq<OrgEntry>, currentId: Option<string>, query: string): (v: View)
    ensures v.EmptyList? <==> FilterOrganizations(orgs, query) == []
    ensures v.EmptyList? ==> v.title == (if query != "" then "No organizations found" else "No organizations yet")
    ensures v.Rows? ==> |v.rows| == |FilterOrganizations(orgs, query)|
    ensures v.Rows? ==> forall i :: 0 <= i < |v.rows| ==> v.rows[i] == RowFor(FilterOrganizations(orgs, query)[i], currentId)
  {
    var shown := FilterOrganizations(orgs, query);
    if |shown| == 0 then
      EmptyList(if query != "" then "No organizations found" else "No organizations yet",
                if query != "" then "Try a different search term" else "Create your first organization to get started")
    else
      Rows(seq(|shown|, i requires 0 <= i < |shown| => RowFor(shown[i], currentId)))
  }

  /** With distinct ids, at most one row is marked current, and it is the one whose id is
      the current id. */
  lemma AtMostOneCurrent(orgs: seq<OrgEntry>, currentId: Option<string>, query: string)
    requires DistinctKeys(orgs, (o: OrgEntry) => o.id)
    ensures var v := Render(orgs, currentId, query);
      v.Rows? ==> forall i, j ::
        (0 <= i < |v.rows| && 0 <= j < |v.rows| && v.rows[i].current && v.rows[j].current) ==> i == j
  {
    var shown := FilterOrganizations(orgs, query);
    FilterDistinct(orgs, o => EntryMatches(o, query), (o: OrgEntry) => o.id);
    var v := Render(orgs, currentId, query);
    if v.Rows? {
      forall i, j | 0 <= i < |v.rows| && 0 <= j < |v.rows| && v.rows[i].current && v.rows[j].current
        ensures i == j
      {
        assert shown[i].id == shown[j].id;
      }
    }
  }

  /** The row's "Open" button opens the organisation's app dashboard in a new tab. */
  function LaunchLink(t: OrgType): (link: string)
    ensures link == "https://" + AppUrl(t) + "/dashboard"
    ensures t == Hotel <==> link == "https://stay.tobiira.io/dashboard"
  {
    "https://" + AppUrl(t) + "/dashboard"
  }
}
