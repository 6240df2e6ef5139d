/**
 * The admin dashboard (client/src/pages/dashboard/AdminDashboard.jsx): the
 * new-vaccine form's recommended ages, typed as comma-separated numbers;
 * the age badges of the vaccine table; and the removal of a deleted child
 * from the list. The child ages shown are `AgeLabel.YearsOnly`.
 */
module AdminDashboard {
  import opened Common
  import opened Text
  import ChildrenList

  /** The longest run of digits that starts `s`. */
  function LeadingDigits(s: string): (r: string)
    ensures r <= s
    ensures forall i :: 0 <= i < |r| ==> IsDigit(r[i])
    ensures |r| < |s| ==> !IsDigit(s[|r|])
  {
    if s == [] || !IsDigit(s[0]) then [] else [s[0]] + LeadingDigits(s[1..])
  }

  /** A string of digits is its own leading digits. */
  lemma {:induction false} AllDigitsLead(s: string)
    requires forall i :: 0 <= i < |s| ==> IsDigit(s[i])
    ensures LeadingDigits(s) == s
  {
    if s != [] {
      AllDigitsLead(s[1..]);
    }
  }

  /**
   * `parseInt` of a trimmed piece: an optional sign, then the leading
   * decimal digits; `None` (NaN) when there are none.
   */
  function ParseInt(s: string): (r: Option<int>)
    ensures r.None? <==> LeadingDigits(if s != [] && (s[0] == '-' || s[0] == '+') then s[1..] else s) == []
  {
    var negative := s != [] && s[0] == '-';
    var rest := if s != [] && (s[0] == '-' || s[0] == '+') then s[1..] else s;
    var digits := LeadingDigits(rest);
    if digits == [] then None
    else Some(if negative then -(DigitsValue(digits) as int) else DigitsValue(digits))
  }

  /** The decimal rendering of an integer, as `${age}` writes it. */
  function IntToString(i: int): (r: string)
    ensures |r| >= 1
  {
    if i < 0 then "-" + NatToString(-i) else NatToString(i)
  }

  /** `parseInt` reads back what `${age}` wrote. */
  lemma ParseIntToString(i: int)
    ensures ParseInt(IntToString(i)) == Some(i)
  {
    if i < 0 {
      ParseDigits(-i, true);
    } else {
      ParseDigits(i, false);
    }
  }

  /** The sign-and-digits reading of a rendered number, one sign at a time. */
  lemma ParseDigits(k: nat, negative: bool)
    requires negative ==> k > 0
    ensures ParseInt(if negative then "-" + NatToString(k) else NatToString(k)) == Some(if negative then -(k as int) else k as int)
  {
    var n := NatToString(k);
    AllDigitsLead(n);
    NatToStringRoundTrip(k);
    var s := if negative then "-" + n else n;
    assert s != [];
    if negative {
      assert s[0] == '-' && s[1..] == n;
    } else {
      assert IsDigit(s[0]) && s[0] != '-' && s[0] != '+';
    }
  }

  /** `recommendedAges.split(',').map(a => parseInt(a.trim()))`: one entry per piece, NaN where a piece has no number. */
  function ParseAges(text: string): (r: seq<Option<int>>)
    ensures |r| == |Split(text, ',')|
    ensures forall i :: 0 <= i < |r| ==> r[i] == ParseInt(Trim(Split(text, ',')[i]))
  {
    var pieces := Split(text, ',');
    seq(|pieces|, i requires 0 <= i < |pieces| => ParseInt(Trim(pieces[i])))
  }

  /** A string of digits is its own trim. */
  lemma TrimDigits(s: string)
    requires |s| >= 1 && forall i :: 0 <= i < |s| ==> IsDigit(s[i])
    ensures Trim(s) == s
  {
    assert IsDigit(s[0]) && IsDigit(s[|s| - 1]);
    assert TrimStart(s) == s;
    assert TrimEnd(s) == s;
  }

  /** Ages written as "0,2,4" are read back as exactly those ages. */
  lemma ParseAgesRoundTrip(ages: seq<nat>)
    requires |ages| >= 1
    ensures var parts := seq(|ages|, i requires 0 <= i < |ages| => NatToString(ages[i]));
      ParseAges(Join(parts, ',')) == seq(|ages|, i requires 0 <= i < |ages| => Some(ages[i] as int))
  {
    var parts := seq(|ages|, i requires 0 <= i < |ages| => NatToString(ages[i]));
    forall i | 0 <= i < |parts| ensures ',' !in parts[i] {
      assert forall k :: 0 <= k < |parts[i]| ==> IsDigit(parts[i][k]);
    }
    SplitJoin(parts, ',');
    forall i | 0 <= i < |parts| ensures ParseInt(Trim(parts[i])) == Some(ages[i] as int) {
      TrimDigits(parts[i]);
      ParseIntToString(ages[i]);
    }
  }

  /** An empty age field is one NaN, not an empty list. */
  lemma EmptyAgesIsOneNaN()
    ensures ParseAges("") == [None]
  {
    assert Split("", ',') == [[]];
    assert Trim([]) == [];
  }

  /** The vaccine the form sends: the ages parsed, the dose count as typed, and the two are never compared. */
  datatype NewVaccine = NewVaccine(name: string, description: string, recommendedAges: seq<Option<int>>,
                                   totalDoses: int, isMandatory: bool)

  datatype VaccineForm = VaccineForm(name: string, description: string, recommendedAges: string,
                                     totalDoses: int, isMandatory: bool)

  function VaccineData(f: VaccineForm): (v: NewVaccine)
    ensures v.recommendedAges == ParseAges(f.recommendedAges)
    ensures v.totalDoses == f.totalDoses && v.name == f.name && v.description == f.description && v.isMandatory == f.isMandatory
  {
    NewVaccine(f.name, f.description, ParseAges(f.recommendedAges), f.totalDoses, f.isMandatory)
  }

  /** The form as it opens and as it is reset after a vaccine is added. */
  function EmptyVaccineForm(): (f: VaccineForm)
    ensures f.name == "" && f.description == "" && f.recommendedAges == "" && f.totalDoses == 1 && f.isMandatory
  {
    VaccineForm("", "", "", 1, true)
  }

  /** The dose count is sent as typed, whatever number of ages the text holds. */
  lemma DosesNotCheckedAgainstAges(f: VaccineForm, doses: int)
    ensures VaccineData(f.(totalDoses := doses)).totalDoses == doses
    ensures VaccineData(f.(totalDoses := doses)).recommendedAges == VaccineData(f).recommendedAges
  {
  }

  /** A recommended age's badge: "at birth" for 0, "<n>m" otherwise. */
  datatype AgeBadge = AtBirth | InMonths(text: string)

  function AgeBadgeOf(age: int): (b: AgeBadge)
    ensures b.AtBirth? <==> age == 0
    ensures b.InMonths? ==> b.text == IntToString(age) + "m"
  {
    if age == 0 then AtBirth else InMonths(IntToString(age) + "m")
  }

  /** A badge names its age: different ages have different badges. */
  lemma AgeBadgeInjective(a: int, b: int)
    requires AgeBadgeOf(a) == AgeBadgeOf(b)
    ensures a == b
  {
    if a != 0 {
      var ta, tb := IntToString(a), IntToString(b);
      assert ta + "m" == tb + "m";
      assert ta == (ta + "m")[..|ta|];
      assert |ta| == |tb|;
      assert tb == (tb + "m")[..|tb|];
      ParseIntToString(a);
      ParseIntToString(b);
    }
  }

  /** `handleDeleteChild`: once the server has deleted the child, only that id leaves the list. */
  function AfterDelete(children: seq<ChildrenList.ChildItem>, childId: string): (r: seq<ChildrenList.ChildItem>)
    ensures forall c :: c in r <==> c in children && c.id != childId
    ensures IsSubsequence(r, children)
  {
    ChildrenList.WithoutChild(children, childId)
  }
}
