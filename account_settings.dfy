/**
 * The account settings list: a fixed table of six settings, filtered by the
 * search box on title and description.
 */
module AccountSettings {
  import opened Text
  import opened Lists

  datatype Setting = Setting(id: string, title: string, description: string)

  /** `settings`, in display order. */
  const Settings: seq<Setting> := [
    Setting("profile", "Profile", "Personal information, photo"),
    Setting("security", "Security", "Login sessions, password"),
    Setting("notifications", "Notifications", "Email, SMS preferences"),
    Setting("preferences", "Preferences", "Theme, language, timezone"),
    Setting("billing", "Billing", "Subscription, payment methods"),
    Setting("privacy", "Privacy", "Data controls, visibility")
  ]

  function Ids(s: seq<Setting>): (ids: seq<string>)
    ensures |ids| == |s| && forall i :: 0 <= i < |s| ==> ids[i] == s[i].id
  {
    seq(|s|, i requires 0 <= i < |s| => s[i].id)
  }

  /** The table holds six entries with these ids, in this order. */
  lemma SettingsTable()
    ensures Ids(Settings) == ["profile", "security", "notifications", "preferences", "billing", "privacy"]
  {
  }

  /** The search looks at the title and the description; the id is not searched. */
  predicate SettingMatches(s: Setting, query: string) {
    MatchesQuery(s.title, query) || MatchesQuery(s.description, query)
  }

  /** `filteredSettings`. */
  function FilterSettings(query: string): (r: seq<Setting>)
    ensures IsSubsequence(r, Settings)
    ensures forall i :: 0 <= i < |r| ==> SettingMatches(r[i], query)
    ensures forall i :: 0 <= i < |Settings| && SettingMatches(Settings[i], query) ==> Settings[i] in r
  {
    Filter(Settings, s => SettingMatches(s, query))
  }

  /** Two settings that differ only in their id match the same searches. */
  lemma IdNotSearched(a: Setting, b: Setting, query: string)
    requires a.title == b.title && a.description == b.description
    ensures SettingMatches(a, query) == SettingMatches(b, query)
  {
  }

  /** An empty search lists all six settings in table order. */
  lemma EmptyQueryListsAll()
    ensures FilterSettings("") == Settings
  {
    forall i | 0 <= i < |Settings| ensures SettingMatches(Settings[i], "") {
      EmptyQueryMatches(Settings[i].title);
    }
  }

  /** "No settings found" is shown exactly when no setting matches. */
  predicate ShowsNoSettingsFound(query: string) {
    |FilterSettings(query)| == 0
  }

  lemma NoSettingsFoundIff(query: string)
    ensures ShowsNoSettingsFound(query) <==> forall i :: 0 <= i < |Settings| ==> !SettingMatches(Settings[i], query)
  {
    var r := FilterSettings(query);
    if !ShowsNoSettingsFound(query) {
      assert SettingMatches(r[0], query) && r[0] in Settings;
    }
  }

  /** The `(settingId, action)` pair each shown row sends when clicked. */
  function Clicks(query: string): (r: seq<(string, string)>)
    ensures |r| == |FilterSettings(query)|
    ensures forall i :: 0 <= i < |r| ==> r[i] == (FilterSettings(query)[i].id, "edit")
  {
    var shown := FilterSettings(query);
    seq(|shown|, i requires 0 <= i < |shown| => (shown[i].id, "edit"))
  }
}
