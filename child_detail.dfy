/**
 * The child page (client/src/pages/children/ChildDetail.jsx): the doses
 * grouped by vaccine and sorted by dose number, the profile and group
 * counts, the date each dose shows, its badge, and which actions a doctor
 * or a parent is offered on it. Doses arrive as the server sends them, so
 * their status is a string.
 */
module ChildDetail {
  import opened Common
  import opened Sorting

  /** A vaccination record as the page receives it, with the vaccine's and the doctor's names populated. */
  datatype Dose = Dose(id: string, vaccineName: Option<string>, doseNumber: int, status: string,
                       scheduledDate: int, administeredDate: Option<int>, doctorName: Option<string>)

  /** The group of a dose: its vaccine's name, or "Unknown" when there is none (`vax.vaccine?.name || 'Unknown'`). */
  function GroupName(d: Dose): (r: string)
    ensures r != ""
    ensures d.vaccineName.Some? && d.vaccineName.value != "" ==> r == d.vaccineName.value
    ensures d.vaccineName.None? || d.vaccineName.value == "" ==> r == "Unknown"
  {
    OrElse(Pick(d.vaccineName, ""), "Unknown")
  }

  /** The doses of group `name`, in arrival order; defined from the end, as the loop appends them. */
  function GroupOf(s: seq<Dose>, name: string): seq<Dose>
  {
    if s == [] then []
    else GroupOf(s[..|s| - 1], name) + (if GroupName(s[|s| - 1]) == name then [s[|s| - 1]] else [])
  }

  /** The group names in order of first appearance. */
  function NamesOf(s: seq<Dose>): seq<string>
  {
    if s == [] then []
    else
      var names := NamesOf(s[..|s| - 1]);
      if GroupName(s[|s| - 1]) in names then names else names + [GroupName(s[|s| - 1])]
  }

  /** A group nobody has opened is empty. */
  lemma {:induction false} UnnamedGroupIsEmpty(s: seq<Dose>, name: string)
    requires name !in NamesOf(s)
    ensures GroupOf(s, name) == []
  {
    if s != [] {
      UnnamedGroupIsEmpty(s[..|s| - 1], name);
    }
  }

  /**
   * `groupVaccinationsByVaccine`: one pass over the doses, opening a group
   * the first time its name is met and appending each dose to its group.
   */
  method GroupByVaccine(vaccinations: seq<Dose>) returns (names: seq<string>, grouped: map<string, seq<Dose>>)
    ensures names == NamesOf(vaccinations)
    ensures forall n :: n in grouped <==> n in names
    ensures forall n :: n in grouped ==> grouped[n] == GroupOf(vaccinations, n)
  {
    names := [];
    grouped := map[];
    var i := 0;
    while i < |vaccinations|
      invariant 0 <= i <= |vaccinations|
      invariant names == NamesOf(vaccinations[..i])
      invariant forall n :: n in grouped <==> n in names
      invariant forall n :: n in grouped ==> grouped[n] == GroupOf(vaccinations[..i], n)
    {
      var vax := vaccinations[i];
      var name := GroupName(vax);
      assert vaccinations[..i + 1][..i] == vaccinations[..i];
      if name !in grouped {
        UnnamedGroupIsEmpty(vaccinations[..i], name);
        grouped := grouped[name := []];
        names := names + [name];
      }
      grouped := grouped[name := grouped[name] + [vax]];
      i := i + 1;
    }
    assert vaccinations[..i] == vaccinations;
  }

  /** A group holds, in arrival order, exactly the doses of its name. */
  lemma {:induction false} GroupIsFilter(s: seq<Dose>, name: string)
    ensures GroupOf(s, name) == Filter(s, (d: Dose) => GroupName(d) == name)
  {
    if s != [] {
      var init, last := s[..|s| - 1], s[|s| - 1];
      GroupIsFilter(init, name);
      assert init + [last] == s;
      FilterAppend(init, last, (d: Dose) => GroupName(d) == name);
    }
  }

  /** The names are those of the doses, each once. */
  lemma {:induction false} NamesAreTheDoses(s: seq<Dose>)
    ensures forall n :: n in NamesOf(s) <==> exists d :: d in s && GroupName(d) == n
    ensures NoDuplicates(NamesOf(s))
  {
    if s != [] {
      var init, last := s[..|s| - 1], s[|s| - 1];
      NamesAreTheDoses(init);
      assert s == init + [last];
      forall n ensures n in NamesOf(s) <==> exists d :: d in s && GroupName(d) == n {
        if n in NamesOf(s) && n != GroupName(last) {
          var d :| d in init && GroupName(d) == n;
          assert d in s;
        }
        if n == GroupName(last) {
          assert last in s;
        }
      }
    }
  }

  /** Every dose is in exactly one group: the one of its own name, which is among the names shown. */
  lemma EachDoseInOneGroup(s: seq<Dose>, d: Dose)
    requires d in s
    ensures GroupName(d) in NamesOf(s) && d in GroupOf(s, GroupName(d))
    ensures forall n :: n != GroupName(d) ==> d !in GroupOf(s, n)
  {
    NamesAreTheDoses(s);
    GroupIsFilter(s, GroupName(d));
    forall n | n != GroupName(d) ensures d !in GroupOf(s, n) {
      GroupIsFilter(s, n);
    }
  }

  /** `doses.sort((a, b) => a.doseNumber - b.doseNumber)`: by ascending dose number, a stable sort. */
  predicate DoseLe(a: Dose, b: Dose)
  {
    a.doseNumber <= b.doseNumber
  }

  function SortedDoses(group: seq<Dose>): (r: seq<Dose>)
    ensures multiset(r) == multiset(group)
  {
    SortBy(group, DoseLe)
  }

  /** A group is shown with its doses in ascending dose number. */
  lemma DosesShownInOrder(group: seq<Dose>)
    ensures SortedBy(SortedDoses(group), DoseLe)
    ensures forall i, j :: 0 <= i < j < |SortedDoses(group)| ==> SortedDoses(group)[i].doseNumber <= SortedDoses(group)[j].doseNumber
  {
    assert TotalPreorder(DoseLe);
    SortBySorted(group, DoseLe);
  }

  /** The number of doses with a given status. */
  function StatusCount(s: seq<Dose>, status: string): nat
  {
    if s == [] then 0 else (if s[0].status == status then 1 else 0) + StatusCount(s[1..], status)
  }

  /** Counting a status is taking the length of the doses filtered by it. */
  lemma {:induction false} StatusCountIsFilter(s: seq<Dose>, status: string)
    ensures StatusCount(s, status) == |Filter(s, (d: Dose) => d.status == status)|
  {
    if s != [] {
      StatusCountIsFilter(s[1..], status);
    }
  }

  /** Two different statuses never count the same dose. */
  lemma {:induction false} TwoStatusCounts(s: seq<Dose>, a: string, b: string)
    requires a != b
    ensures StatusCount(s, a) + StatusCount(s, b) <= |s|
  {
    if s != [] {
      TwoStatusCounts(s[1..], a, b);
    }
  }

  /** The profile's figures: all doses, the completed ones and the delayed ones. */
  datatype Profile = Profile(total: nat, completed: nat, delayed: nat)

  function ProfileOf(s: seq<Dose>): (r: Profile)
    ensures r.total == |s|
    ensures r.completed == |Filter(s, (d: Dose) => d.status == "completed")|
    ensures r.delayed == |Filter(s, (d: Dose) => d.status == "delayed")|
    ensures r.completed + r.delayed <= r.total
  {
    TwoStatusCounts(s, "completed", "delayed");
    StatusCountIsFilter(s, "completed");
    StatusCountIsFilter(s, "delayed");
    Profile(|s|, StatusCount(s, "completed"), StatusCount(s, "delayed"))
  }

  /** A group's header: its completed doses over its size. */
  function GroupHeader(group: seq<Dose>): (r: (nat, nat))
    ensures r.0 <= r.1 == |group|
    ensures r.0 == |Filter(group, (d: Dose) => d.status == "completed")|
  {
    TwoStatusCounts(group, "completed", "");
    StatusCountIsFilter(group, "completed");
    (StatusCount(group, "completed"), |group|)
  }

  /** The date a dose shows. */
  datatype ShownDate = AdministeredOn(date: int) | ScheduledFor(date: int)

  /** The administration date, for a completed dose that has one; the scheduled date otherwise. */
  function DateShown(d: Dose): (r: ShownDate)
    ensures r.AdministeredOn? <==> d.status == "completed" && d.administeredDate.Some?
    ensures r.AdministeredOn? ==> r.date == d.administeredDate.value
    ensures r.ScheduledFor? ==> r.date == d.scheduledDate
  {
    if d.status == "completed" && d.administeredDate.Some? then AdministeredOn(d.administeredDate.value)
    else ScheduledFor(d.scheduledDate)
  }

  datatype BadgeClass = Primary | Success | Danger | Gray

  /** A badge's text: a translation key, or the raw status for one the table lacks. */
  datatype BadgeText = Key(key: string) | Raw(status: string)

  /**
   * `getStatusBadge`: the four dose statuses the table knows, with a missed
   * dose labelled by the dashboard's "delayed" text; any other status,
   * cancelled included, is gray with its raw name.
   */
  function Badge(status: string): (r: (BadgeClass, BadgeText))
    ensures !(status in {"scheduled", "completed", "delayed", "missed"}) ==> r == (Gray, Raw(status))
    ensures status in {"scheduled", "completed", "delayed"} ==> r.1 == Key("vaccinations." + status)
    ensures status == "missed" ==> r == (Gray, Key("dashboard.delayed"))
    ensures r.0 == Success <==> status == "completed"
  {
    if status == "scheduled" then (Primary, Key("vaccinations." + status))
    else if status == "completed" then (Success, Key("vaccinations." + status))
    else if status == "delayed" then (Danger, Key("vaccinations." + status))
    else if status == "missed" then (Gray, Key("dashboard.delayed"))
    else (Gray, Raw(status))
  }

  datatype DoseAction = ReportSideEffect | MarkCompleted

  /** The buttons of a dose: a parent may report a side effect of a completed dose, a doctor complete any other. */
  function Actions(isParent: bool, isDoctor: bool, d: Dose): (r: set<DoseAction>)
    ensures ReportSideEffect in r <==> isParent && d.status == "completed"
    ensures MarkCompleted in r <==> isDoctor && d.status != "completed"
  {
    (if isParent && d.status == "completed" then {ReportSideEffect} else {}) +
    (if isDoctor && d.status != "completed" then {MarkCompleted} else {})
  }

  /** No dose offers both actions, whoever looks at it. */
  lemma NoDoseOffersBoth(isParent: bool, isDoctor: bool, d: Dose)
    ensures !(ReportSideEffect in Actions(isParent, isDoctor, d) && MarkCompleted in Actions(isParent, isDoctor, d))
  {
  }

  /** The update `handleMarkAsCompleted` sends: status completed, administered now. */
  datatype StatusUpdate = StatusUpdate(status: string, administeredDate: int)

  function MarkCompletedUpdate(now: int): (u: StatusUpdate)
    ensures u.status == "completed" && u.administeredDate == now
  {
    StatusUpdate("completed", now)
  }

  /** Once the update is applied, the dose shows its administration date and offers a parent the report. */
  lemma CompletedDoseShowsAdministration(d: Dose, now: int, isParent: bool, isDoctor: bool)
    ensures var e := d.(status := MarkCompletedUpdate(now).status, administeredDate := Some(now));
      DateShown(e) == AdministeredOn(now) &&
      Actions(isParent, isDoctor, e) == (if isParent then {ReportSideEffect} else {})
  {
  }
}
