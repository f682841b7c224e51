/**
 * The phone number field: a country picker over a fixed table of dial codes
 * and a local-number box that regroups digits as they are typed. The stored
 * value is "<dial code> <local number>".
 */
module PhoneInput {
  import opened Wrappers
  import opened Text
  import Lists

  /** A table entry (the flag is presentation and is left out). */
  datatype Country = Country(code: string, dialCode: string)

  /** `COUNTRIES`, in table order. The dial codes are ITU-T E.164 country calling codes. */
  const Countries: seq<Country> := [
    Country("UG", "+256"),
    Country("KE", "+254"),
    Country("TZ", "+255"),
    Country("RW", "+250"),
    Country("SS", "+211"),
    Country("ET", "+251"),
    Country("NG", "+234"),
    Country("GH", "+233"),
    Country("ZA", "+27"),
    Country("US", "+1"),
    Country("GB", "+44"),
    Country("CA", "+1")
  ]

  /** A dial code: '+' and one to three digits. */
  predicate IsDialCode(d: string) {
    2 <= |d| <= 4 && d[0] == '+' && AllDigits(d[1..])
  }

  /** Every dial code of the table is '+' and one to three digits. */
  lemma DialCodesWellFormed()
    ensures forall c | c in Countries :: IsDialCode(c.dialCode)
  {
  }

  /** The dial codes of the table, character by character: "+2" and a digit in {1,3,5}
      then one more digit, or "+27", "+44" or "+1". */
  predicate TableDialShape(d: string) {
    || (|d| == 4 && d[1] == '2' && (d[2] == '1' || d[2] == '3' || d[2] == '5'))
    || (|d| == 3 && d[1] == '2' && d[2] == '7')
    || (|d| == 3 && d[1] == '4' && d[2] == '4')
    || (|d| == 2 && d[1] == '1')
  }

  lemma TableDialShapes()
    ensures forall c | c in Countries :: TableDialShape(c.dialCode)
  {
  }

  /** No dial code of the table is a proper prefix of another. */
  lemma DialCodesPrefixFree()
    ensures forall c, e | c in Countries && e in Countries && IsPrefix(c.dialCode, e.dialCode) ::
      c.dialCode == e.dialCode
  {
    TableDialShapes();
    forall c, e | c in Countries && e in Countries && IsPrefix(c.dialCode, e.dialCode)
      ensures c.dialCode == e.dialCode
    {
      var p, q := c.dialCode, e.dialCode;
      assert TableDialShape(p) && TableDialShape(q);
      assert p[1] == q[1] && (|p| >= 3 ==> p[2] == q[2]) by {
        assert q[..|p|][1] == q[1];
        assert |p| >= 3 ==> q[..|p|][2] == q[2];
      }
      assert |p| == |q|;
      assert q[..|p|] == q;
    }
  }

  /** Only US and CA share a dial code (+1), and US comes first. */
  lemma SharedDialCodes()
    ensures forall i, j | 0 <= i < j < |Countries| && Countries[i].dialCode == Countries[j].dialCode ::
      i == 9 && j == 11
    ensures Countries[9].dialCode == Countries[11].dialCode
    ensures forall i | 0 <= i < |Countries| && Countries[i].code == "CA" :: i == 11
    ensures Countries[9].code == "US" && Countries[11].code == "CA"
  {
  }

  /** The initial `selectedCountry`: the entry whose code is `defaultCountry`, else the first (UG). */
  function InitialCountry(defaultCountry: string): (c: Country)
    ensures c in Countries
  {
    var isDefault := (c: Country) => c.code == defaultCountry;
    Lists.FindOrDefault(Countries, isDefault, Countries[0]);
    Lists.Find(Countries, isDefault).GetOr(Countries[0])
  }

  /** The initial country has the requested code when the table has one, and is UG otherwise. */
  lemma InitialCountryChoice(defaultCountry: string)
    ensures (exists i :: 0 <= i < |Countries| && Countries[i].code == defaultCountry) ==>
      InitialCountry(defaultCountry).code == defaultCountry
    ensures (forall i :: 0 <= i < |Countries| ==> Countries[i].code != defaultCountry) ==>
      InitialCountry(defaultCountry) == Countries[0]
  {
    Lists.FindOrDefault(Countries, (c: Country) => c.code == defaultCountry, Countries[0]);
  }

  /** `COUNTRIES.find(c => value.startsWith(c.dialCode))`. */
  function CountryForNumber(value: string): (r: Option<Country>)
    ensures r.Some? ==> r.value in Countries && IsPrefix(r.value.dialCode, value)
  {
    Lists.FindIn(Countries, (c: Country) => IsPrefix(c.dialCode, value));
    Lists.Find(Countries, (c: Country) => IsPrefix(c.dialCode, value))
  }

  /** The mount-time parse of a non-empty `value`: the matching country and the trimmed rest. */
  function ParseValue(value: string): Option<(Country, string)> {
    if value == "" then None
    else match CountryForNumber(value)
      case None => None
      case Some(c) => Some((c, Trim(value[|c.dialCode|..])))
  }

  /** The mount-time parse step by step: the search for a dial code prefix, then the rest
      of the value after it, trimmed. */
  method ParseMount(value: string) returns (parsed: Option<(Country, string)>)
    ensures parsed == ParseValue(value)
    ensures parsed.Some? ==> parsed.value.0 in Countries
  {
    parsed := None;
    if value != "" {
      var country := CountryForNumber(value);
      if country.Some? {
        var c := country.value;
        parsed := Some((c, Trim(value[|c.dialCode|..])));
      }
    }
  }

  /** `fullNumber`: "" for a blank local number, otherwise dial code, a space and the
      trimmed local number. */
  function FullNumber(dialCode: string, localNumber: string): string {
    if Trim(localNumber) != "" then dialCode + " " + Trim(localNumber) else ""
  }

  /** The value passed to `onChange`, which is called only when it differs from `value`. */
  function ParentUpdate(fullNumber: string, value: string): (r: Option<string>)
    ensures r.Some? <==> fullNumber != value
    ensures r.Some? ==> r.value == fullNumber
  {
    if fullNumber != value then Some(fullNumber) else None
  }

  /** A run of '0's after a leading '0' is one run. */
  lemma ZerosExtendLeft(s: string, k: nat)
    requires 1 <= k <= |s| && s[0] == '0'
    requires forall i :: 0 <= i < k - 1 ==> s[1..][i] == '0'
    ensures forall i :: 0 <= i < k ==> s[i] == '0'
  {
    forall i | 1 <= i < k ensures s[i] == '0' {
      assert s[i] == s[1..][i - 1];
    }
  }

  /** `replace(/^0+/, '')`. */
  function StripLeadingZeros(s: string): (r: string)
    ensures |r| <= |s| && r == s[|s| - |r|..]
    ensures r == "" || r[0] != '0'
    ensures forall i :: 0 <= i < |s| - |r| ==> s[i] == '0'
  {
    if s != [] && s[0] == '0' then
      var r := StripLeadingZeros(s[1..]);
      ZerosExtendLeft(s, |s| - |r|);
      r
    else s
  }

  /** The digits of an input without leading zeros: what the number box groups. */
  function NationalDigits(input: string): (d: string)
    ensures AllDigits(d) && (d == "" || d[0] != '0')
    ensures StripLeadingZeros(d) == d
  {
    StripLeadingZeros(KeepDigits(input))
  }

  /** The first match of three digit groups of 3, 3 and `last` digits gets spaces between
      the groups; in a string of digits that match starts at 0 whenever it exists. */
  function GroupDigits(d: string, last: nat): string
    requires last >= 3
  {
    if |d| < 6 + last then d
    else d[..3] + " " + d[3..6] + " " + d[6..6 + last] + d[6 + last..]
  }

  /** `formatPhoneNumber` for the selected country's code: US and CA group 3-3-4,
      UG and every other country 3-3-3. */
  function FormatPhoneNumber(input: string, countryCode: string): string {
    var digits := NationalDigits(input);
    if countryCode == "UG" then GroupDigits(digits, 3)
    else if countryCode == "US" || countryCode == "CA" then GroupDigits(digits, 4)
    else GroupDigits(digits, 3)
  }

  /** The size of the last group for a country code. */
  function LastGroup(countryCode: string): nat {
    if countryCode == "US" || countryCode == "CA" then 4 else 3
  }

  predicate DigitOrSpace(c: char) {
    IsDigit(c) || c == ' '
  }

  // ---------------------------------------------------------------------------
  // Lemmas about formatting

  /** Grouping keeps the digits and only adds spaces. */
  lemma GroupContent(d: string, n: nat)
    requires n >= 3 && AllDigits(d)
    ensures var r := GroupDigits(d, n);
      && (forall i :: 0 <= i < |r| ==> DigitOrSpace(r[i]))
      && KeepDigits(r) == d
      && (d != [] ==> r != [] && r[0] == d[0] && r[|r| - 1] == d[|d| - 1])
  {
    if |d| >= 6 + n {
      GroupKeepsDigits(d, n);
      GroupCharacters(d, n);
    }
  }

  lemma GroupKeepsDigits(d: string, n: nat)
    requires n >= 3 && AllDigits(d) && |d| >= 6 + n
    ensures KeepDigits(GroupDigits(d, n)) == d
  {
    var g1, g2, t := d[..3], d[3..6], d[6..];
    DigitSlice(d, 0, 3);
    DigitSlice(d, 3, 6);
    DigitSlice(d, 6, |d|);
    GroupSplit(d, n);
    SpacedDigits(g2, t);
    SpacedDigits(g1, g2 + (" " + t));
    assert d == g1 + (g2 + t);
  }

  lemma DigitSlice(d: string, i: nat, j: nat)
    requires AllDigits(d) && i <= j <= |d|
    ensures AllDigits(d[i..j])
  {
    forall k | 0 <= k < j - i ensures IsDigit(d[i..j][k]) {
      assert d[i..j][k] == d[i + k];
    }
  }

  /** The grouped number as the first group, a space, the second group, a space, and the rest. */
  lemma GroupSplit(d: string, n: nat)
    requires n >= 3 && |d| >= 6 + n
    ensures GroupDigits(d, n) == d[..3] + (" " + (d[3..6] + (" " + d[6..])))
  {
    assert d[6..6 + n] + d[6 + n..] == d[6..];
  }

  lemma GroupCharacters(d: string, n: nat)
    requires n >= 3 && AllDigits(d) && |d| >= 6 + n
    ensures var r := GroupDigits(d, n);
      && (forall i :: 0 <= i < |r| ==> DigitOrSpace(r[i]))
      && r[0] == d[0] && r[|r| - 1] == d[|d| - 1]
  {
    var r := GroupDigits(d, n);
    forall i | 0 <= i < |r| ensures DigitOrSpace(r[i]) {
      if i < 3 { assert r[i] == d[i]; }
      else if i == 3 { }
      else if i < 7 { assert r[i] == d[i - 1]; }
      else if i == 7 { }
      else { assert r[i] == d[i - 2]; }
    }
  }

  /** A space between two digit runs is dropped by `KeepDigits`. */
  lemma SpacedDigits(g: string, rest: string)
    requires AllDigits(g)
    ensures KeepDigits(g + (" " + rest)) == g + KeepDigits(rest)
  {
    KeepDigitsAppend(g, " " + rest);
    assert (" " + rest)[1..] == rest;
  }

  /** UG and the default both group 3-3-3, so the format is one grouping rule. */
  lemma FormatIsGrouped(input: string, countryCode: string)
    ensures FormatPhoneNumber(input, countryCode) == GroupDigits(NationalDigits(input), LastGroup(countryCode))
  {
  }

  /** The formatted number holds only digits and spaces; dropping the spaces gives the
      input's digits without leading zeros; it starts and ends with a digit, never '0' first. */
  lemma FormatContent(input: string, countryCode: string)
    ensures var r := FormatPhoneNumber(input, countryCode);
      && (forall i :: 0 <= i < |r| ==> DigitOrSpace(r[i]))
      && KeepDigits(r) == NationalDigits(input)
      && (r == "" || (IsDigit(r[0]) && r[0] != '0' && IsDigit(r[|r| - 1])))
  {
    FormatIsGrouped(input, countryCode);
    GroupContent(NationalDigits(input), LastGroup(countryCode));
  }

  /** Grouping: too few digits for the country's pattern leaves them as they are; otherwise
      the first 9 (or 10) digits become groups of 3-3-3 (or 3-3-4) and any further digits
      follow the last group unchanged. */
  lemma FormatGrouping(input: string, countryCode: string)
    ensures var d := NationalDigits(input);
      var n := LastGroup(countryCode);
      var r := FormatPhoneNumber(input, countryCode);
      && (|d| < 6 + n ==> r == d && ' ' !in r)
      && (|d| >= 6 + n ==> r == d[..3] + " " + d[3..6] + " " + d[6..6 + n] + d[6 + n..])
  {
    FormatIsGrouped(input, countryCode);
  }

  /** Grouping adds two spaces, or none when there are too few digits. */
  lemma FormatLength(input: string, countryCode: string)
    ensures var d := NationalDigits(input);
      |FormatPhoneNumber(input, countryCode)| == if |d| < 6 + LastGroup(countryCode) then |d| else |d| + 2
  {
    FormatIsGrouped(input, countryCode);
  }

  /** Formatting is idempotent: re-formatting what the box shows changes nothing. */
  lemma FormatIdempotent(input: string, countryCode: string)
    ensures FormatPhoneNumber(FormatPhoneNumber(input, countryCode), countryCode)
         == FormatPhoneNumber(input, countryCode)
  {
    FormatContent(input, countryCode);
    FormatIsGrouped(input, countryCode);
    FormatIsGrouped(FormatPhoneNumber(input, countryCode), countryCode);
  }

  /** A formatted number has no whitespace at either end, so composing keeps it as is. */
  lemma FormatIsTrimmed(input: string, countryCode: string)
    ensures var r := FormatPhoneNumber(input, countryCode); Trim(r) == r
  {
    FormatContent(input, countryCode);
    DigitEndsTrimmed(FormatPhoneNumber(input, countryCode));
  }

  // ---------------------------------------------------------------------------
  // Lemmas about the stored value

  /** In a table whose dial codes are well formed and prefix-free, the entries that are a
      prefix of "<dial code> <rest>" are exactly those with that dial code. */
  lemma ComposedPrefixes(t: seq<Country>, d: string, rest: string)
    requires forall c | c in t :: IsDialCode(c.dialCode)
    requires forall c, e | c in t && e in t && IsPrefix(c.dialCode, e.dialCode) :: c.dialCode == e.dialCode
    requires exists c | c in t :: c.dialCode == d
    ensures forall i :: 0 <= i < |t| ==> IsPrefix(t[i].dialCode, d + " " + rest) == (t[i].dialCode == d)
  {
    var v := d + " " + rest;
    var e :| e in t && e.dialCode == d;
    forall i | 0 <= i < |t|
      ensures IsPrefix(t[i].dialCode, v) == (t[i].dialCode == d)
    {
      var p := t[i].dialCode;
      assert t[i] in t;
      if IsPrefix(p, v) {
        if |p| <= |d| {
          assert v[..|p|] == d[..|p|];
          assert IsPrefix(p, d);
        }
      }
      if p == d {
        assert v[..|p|] == d;
      }
    }
  }

  /** After a table dial code and a space, the search finds the first entry with the same
      dial code. */
  lemma CountryForComposed(k: nat, rest: string)
    requires k < |Countries|
    ensures CountryForNumber(Countries[k].dialCode + " " + rest)
         == Lists.Find(Countries, (c: Country) => c.dialCode == Countries[k].dialCode)
  {
    DialCodesWellFormed();
    DialCodesPrefixFree();
    var d := Countries[k].dialCode;
    assert Countries[k] in Countries;
    ComposedPrefixes(Countries, d, rest);
    Lists.FindAgrees(Countries, (c: Country) => IsPrefix(c.dialCode, d + " " + rest), (c: Country) => c.dialCode == d);
  }

  /** In a table where entries i < j share a dial code only for (9, 11), the first entry
      with entry k's dial code is entry k itself, or entry 9 when k is 11. */
  lemma FirstSameDialIn(t: seq<Country>, k: nat)
    requires k < |t|
    requires forall i, j | 0 <= i < j < |t| && t[i].dialCode == t[j].dialCode :: i == 9 && j == 11
    requires |t| == 12 && t[9].dialCode == t[11].dialCode
    ensures var r := Lists.Find(t, (c: Country) => c.dialCode == t[k].dialCode);
      && r.Some? && r.value.dialCode == t[k].dialCode
      && (k != 11 ==> r.value == t[k])
      && (k == 11 ==> r.value == t[9])
  {
    var d := t[k].dialCode;
    var r := Lists.Find(t, (c: Country) => c.dialCode == d);
    assert t[k].dialCode == d;
    var i :| 0 <= i < |t| && t[i] == r.value && t[i].dialCode == d &&
             forall j :: 0 <= j < i ==> t[j].dialCode != d;
    assert i <= k;
  }

  /** The first entry with a given entry's dial code is that entry, except that CA (+1)
      resolves to US, which comes first. */
  lemma FirstWithDialCode(k: nat)
    requires k < |Countries|
    ensures var r := Lists.Find(Countries, (c: Country) => c.dialCode == Countries[k].dialCode);
      && r.Some? && r.value.dialCode == Countries[k].dialCode
      && (Countries[k].code != "CA" ==> r.value == Countries[k])
      && (Countries[k].code == "CA" ==> r.value.code == "US")
  {
    SharedDialCodes();
    FirstSameDialIn(Countries, k);
  }

  /** Round trip: parsing a non-empty stored value gives back the same dial code and the
      trimmed local number; the country is the one composed, except CA, read back as US. */
  lemma ParseComposed(k: nat, localNumber: string)
    requires k < |Countries| && Trim(localNumber) != ""
    ensures var c := Countries[k];
      var p := ParseValue(FullNumber(c.dialCode, localNumber));
      && p.Some?
      && p.value.0.dialCode == c.dialCode
      && p.value.1 == Trim(localNumber)
      && (c.code != "CA" ==> p.value.0 == c)
      && (c.code == "CA" ==> p.value.0.code == "US")
  {
    var d := Countries[k].dialCode;
    var t := Trim(localNumber);
    CountryForComposed(k, t);
    FirstWithDialCode(k);
    var c := CountryForNumber(d + " " + t).value;
    ParseAfterDialCode(c, localNumber);
    assert FullNumber(d, localNumber) == d + " " + t;
  }

  /** Parsing "<dial code> <trimmed local number>" where the search finds country `c` gives
      `c` and the trimmed local number. */
  lemma ParseAfterDialCode(c: Country, localNumber: string)
    requires CountryForNumber(c.dialCode + " " + Trim(localNumber)) == Some(c)
    ensures ParseValue(c.dialCode + " " + Trim(localNumber)) == Some((c, Trim(localNumber)))
  {
    RestAfterDialCode(c.dialCode, localNumber);
  }

  /** What follows the dial code and the space, trimmed, is the trimmed local number. */
  lemma RestAfterDialCode(d: string, localNumber: string)
    ensures Trim((d + " " + Trim(localNumber))[|d|..]) == Trim(localNumber)
  {
    assert (d + " " + Trim(localNumber))[|d|..] == " " + Trim(localNumber);
    assert AllWhitespace(" ") by {
      assert IsWhitespace(" "[0]);
    }
    TrimAfterLeadingWhitespace(" ", localNumber);
  }

  /** Re-composing a parsed stored value gives the same value: once the parsed country and
      local number are rendered, the sync effect of that render leaves a stored composed
      value alone. (The sync effect of the mount commit itself still reads the initial
      empty local number; see `MountSyncSeesEmptyNumber`.) */
  lemma MountKeepsComposedValue(k: nat, localNumber: string)
    requires k < |Countries| && Trim(localNumber) != ""
    ensures var v := FullNumber(Countries[k].dialCode, localNumber);
      var p := ParseValue(v);
      p.Some? && ParentUpdate(FullNumber(p.value.0.dialCode, p.value.1), v) == None
  {
    ParseComposed(k, localNumber);
    TrimIdempotent(localNumber);
  }

  /** Both effects run in the mount commit, and the sync effect there reads the state from
      before the parse: whatever country is selected, the local number is still empty, so a
      non-empty `value` is answered with `onChange("")`. */
  lemma MountSyncSeesEmptyNumber(selected: Country, value: string)
    requires value != ""
    ensures FullNumber(selected.dialCode, "") == ""
    ensures ParentUpdate(FullNumber(selected.dialCode, ""), value) == Some("")
  {
    assert Trim("") == "";
  }

  /** A non-empty value with no known dial code is not parsed; the local number stays empty,
      so the composed value is "" and `onChange("")` clears the parent's value. */
  lemma UnknownPrefixIsCleared(value: string, selected: Country)
    requires value != "" && CountryForNumber(value).None?
    ensures ParseValue(value) == None
    ensures ParentUpdate(FullNumber(selected.dialCode, ""), value) == Some("")
  {
    assert Trim("") == "";
  }

  class PhoneInput {
    /** The `selectedCountry` state. */
    var selected: Country
    /** The `localNumber` state: what the number box shows. */
    var localNumber: string
    /** The `isDropdownOpen` state. */
    var dropdownOpen: bool

    ghost predicate Valid()
      reads this
    {
      selected in Countries
    }

    constructor (defaultCountry: string := "UG")
      ensures Valid()
      ensures selected == InitialCountry(defaultCountry) && localNumber == "" && !dropdownOpen
    {
      var c := InitialCountry(defaultCountry);
      selected, localNumber, dropdownOpen := c, "", false;
    }

    /** The value the component reports to its parent. */
    function Value(): string
      reads this
    {
      FullNumber(selected.dialCode, localNumber)
    }

    /** The mount effect: a parsable `value` selects its country and fills the local number;
        anything else changes nothing. */
    method ParseOnMount(value: string)
      requires Valid()
      modifies this
      ensures Valid() && dropdownOpen == old(dropdownOpen)
      ensures ParseValue(value).Some? ==>
        selected == ParseValue(value).value.0 && localNumber == ParseValue(value).value.1
      ensures ParseValue(value).None? ==>
        selected == old(selected) && localNumber == old(localNumber)
    {
      var parsed := ParseMount(value);
      if parsed.Some? {
        selected, localNumber := parsed.value.0, parsed.value.1;
      }
    }

    /** The sync effect: the value passed to `onChange`, if it is called. */
    method SyncParent(value: string) returns (emitted: Option<string>)
      ensures emitted == ParentUpdate(Value(), value)
    {
      var full := if Trim(localNumber) != "" then selected.dialCode + " " + Trim(localNumber) else "";
      emitted := if full != value then Some(full) else None;
    }

    /** `handleNumberChange`: the box shows the reformatted input. */
    method HandleNumberChange(input: string)
      requires Valid()
      modifies this
      ensures Valid() && selected == old(selected) && dropdownOpen == old(dropdownOpen)
      ensures localNumber == FormatPhoneNumber(input, selected.code)
    {
      localNumber := FormatPhoneNumber(input, selected.code);
    }

    /** `handleCountrySelect` on a table entry: it becomes current and the list closes. */
    method HandleCountrySelect(country: Country)
      requires Valid() && country in Countries
      modifies this
      ensures Valid() && localNumber == old(localNumber)
      ensures selected == country && !dropdownOpen
    {
      selected := country;
      dropdownOpen := false;
    }

    /** A click on the country button. */
    method ToggleDropdown()
      requires Valid()
      modifies this
      ensures Valid() && selected == old(selected) && localNumber == old(localNumber)
      ensures dropdownOpen == !old(dropdownOpen)
    {
      dropdownOpen := !dropdownOpen;
    }

    /** A mouse press outside the picker closes the list. */
    method ClickOutside()
      requires Valid()
      modifies this
      ensures Valid() && selected == old(selected) && localNumber == old(localNumber)
      ensures !dropdownOpen
    {
      dropdownOpen := false;
    }
  }
}
