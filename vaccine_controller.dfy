/**
 * The vaccine catalog (server/controllers/vaccineController.js): listing of
 * the active vaccines, lookup, creation and update by an admin, soft
 * deletion, and the reset to the national calendar.
 */
module VaccineController {
  import opened Common
  import opened Sorting
  import opened VaccineModel
  import opened Store

  /** The smallest recommended age, which is what an ascending sort on the array field compares. */
  function MinAge(ages: seq<int>): (r: Option<int>)
    ensures r.None? <==> ages == []
    ensures r.Some? ==> r.value in ages && forall a :: a in ages ==> r.value <= a
  {
    if ages == [] then None
    else
      var rest := MinAge(ages[1..]);
      assert ages == [ages[0]] + ages[1..];
      if rest.None? || ages[0] <= rest.value then Some(ages[0]) else rest
  }

  /** The order of `sort({ recommendedAges: 1 })`: by smallest age, a vaccine without ages first. */
  predicate AgeLe(a: (Id, Vaccine), b: (Id, Vaccine))
  {
    match (MinAge(a.1.recommendedAges), MinAge(b.1.recommendedAges))
    case (None, _) => true
    case (Some(_), None) => false
    case (Some(x), Some(y)) => x <= y
  }

  lemma AgeLeIsTotalPreorder()
    ensures TotalPreorder(AgeLe)
  {
  }

  predicate IsActiveEntry(e: (Id, Vaccine))
  {
    e.1.isActive
  }

  /** `getVaccines`: exactly the active vaccines of the store, youngest first dose first. */
  function ActiveVaccines(vs: map<Id, Vaccine>, n: nat): (r: seq<(Id, Vaccine)>)
    ensures forall e :: e in r <==> e.0 in vs && e.0 < n && vs[e.0] == e.1 && e.1.isActive
    ensures SortedBy(r, AgeLe)
  {
    var active := Filter(Entries(vs, n), IsActiveEntry);
    AgeLeIsTotalPreorder();
    SortBySorted(active, AgeLe);
    var r := SortBy(active, AgeLe);
    assert forall e :: e in r <==> e in active by {
      forall e ensures e in r <==> e in active { SortByMembers(active, AgeLe, e); }
    }
    r
  }

  /** `getVaccine`: the stored vaccine, inactive or not, or 404. */
  function GetVaccine(vs: map<Id, Vaccine>, id: Id): (r: Result<Vaccine>)
    ensures r.Ok? <==> id in vs
    ensures r.Ok? ==> r.value == vs[id]
    ensures r.Err? ==> r.error == NotFound
  {
    if id in vs then Ok(vs[id]) else Err(NotFound)
  }

  /** `createVaccine` (admin): stores the body as given, whatever its dose count. */
  method CreateVaccine(db: Db, caller: Actor, v: Vaccine) returns (id: Id)
    requires db.Valid() && caller.role == Admin
    modifies db`vaccines, db`nextId
    ensures db.Valid()
    ensures id == old(db.nextId) && id !in old(db.vaccines)
    ensures db.vaccines == old(db.vaccines)[id := v]
  {
    id := db.NewId();
    db.vaccines := db.vaccines[id := v];
  }

  /** The fields a `PUT /vaccines/:id` body may carry; an absent field keeps its value. */
  datatype VaccinePatch = VaccinePatch(
    name: Option<string>,
    description: Option<string>,
    recommendedAges: Option<seq<int>>,
    totalDoses: Option<int>,
    isMandatory: Option<bool>,
    isActive: Option<bool>)

  /** The document `findByIdAndUpdate` stores: given fields replaced, the others kept. */
  function ApplyPatch(v: Vaccine, p: VaccinePatch): (r: Vaccine)
    ensures p.name.None? ==> r.name == v.name
    ensures p.name.Some? ==> r.name == p.name.value
    ensures p.description.None? ==> r.description == v.description
    ensures p.description.Some? ==> r.description == p.description.value
    ensures p.recommendedAges.None? ==> r.recommendedAges == v.recommendedAges
    ensures p.recommendedAges.Some? ==> r.recommendedAges == p.recommendedAges.value
    ensures p.totalDoses.None? ==> r.totalDoses == v.totalDoses
    ensures p.totalDoses.Some? ==> r.totalDoses == p.totalDoses.value
    ensures p.isMandatory.None? ==> r.isMandatory == v.isMandatory
    ensures p.isMandatory.Some? ==> r.isMandatory == p.isMandatory.value
    ensures p.isActive.None? ==> r.isActive == v.isActive
    ensures p.isActive.Some? ==> r.isActive == p.isActive.value
  {
    Vaccine(Pick(p.name, v.name), Pick(p.description, v.description),
            Pick(p.recommendedAges, v.recommendedAges), Pick(p.totalDoses, v.totalDoses),
            Pick(p.isMandatory, v.isMandatory), Pick(p.isActive, v.isActive))
  }

  lemma EmptyPatchKeeps(v: Vaccine)
    ensures ApplyPatch(v, VaccinePatch(None, None, None, None, None, None)) == v
  {
  }

  /** `updateVaccine` (admin): 404 for an unknown id, otherwise the patched vaccine. */
  method UpdateVaccine(db: Db, caller: Actor, id: Id, p: VaccinePatch) returns (r: Result<Vaccine>)
    requires db.Valid() && caller.role == Admin
    modifies db`vaccines
    ensures db.Valid()
    ensures id !in old(db.vaccines) ==> r == Err(NotFound) && db.vaccines == old(db.vaccines)
    ensures id in old(db.vaccines) ==>
      r == Ok(ApplyPatch(old(db.vaccines)[id], p)) && db.vaccines == old(db.vaccines)[id := r.value]
  {
    if id !in db.vaccines {
      return Err(NotFound);
    }
    var v := ApplyPatch(db.vaccines[id], p);
    db.vaccines := db.vaccines[id := v];
    r := Ok(v);
  }

  /** `deleteVaccine` (admin): a soft delete that only clears `isActive`. */
  method DeleteVaccine(db: Db, caller: Actor, id: Id) returns (r: Result<()>)
    requires db.Valid() && caller.role == Admin
    modifies db`vaccines
    ensures db.Valid()
    ensures id !in old(db.vaccines) ==> r == Err(NotFound) && db.vaccines == old(db.vaccines)
    ensures id in old(db.vaccines) ==>
      r == Ok(()) && db.vaccines == old(db.vaccines)[id := old(db.vaccines)[id].(isActive := false)]
  {
    if id !in db.vaccines {
      return Err(NotFound);
    }
    db.vaccines := db.vaccines[id := db.vaccines[id].(isActive := false)];
    r := Ok(());
  }

  /** After a soft delete the vaccine is still found by id but no longer listed, and the rest of the listing is unchanged. */
  lemma SoftDeleteHidesOnlyIt(vs: map<Id, Vaccine>, n: nat, id: Id, other: (Id, Vaccine))
    requires id in vs
    requires other.0 != id
    ensures var after := vs[id := vs[id].(isActive := false)];
      GetVaccine(after, id) == Ok(vs[id].(isActive := false)) &&
      (forall e :: e in ActiveVaccines(after, n) ==> e.0 != id) &&
      (other in ActiveVaccines(after, n) <==> other in ActiveVaccines(vs, n))
  {
  }

  /** The national calendar that seeding installs. */
  function NationalCatalog(): seq<Vaccine>
  {
    [ Vaccine("BCG", "Vaccin contre la tuberculose", [0], 1, true, true),
      Vaccine("Hépatite B", "Vaccin contre l'hépatite B", [0, 1, 6], 3, true, true),
      Vaccine("DTP-Hib-HepB (Pentavalent)",
              "Diphtérie, Tétanos, Coqueluche, Haemophilus influenzae b, Hépatite B", [2, 3, 4], 3, true, true),
      Vaccine("Polio (VPO)", "Vaccin oral contre la poliomyélite", [2, 3, 4, 16], 4, true, true),
      Vaccine("Pneumocoque", "Vaccin contre les infections à pneumocoque", [2, 4, 12], 3, true, true),
      Vaccine("Rougeole-Rubéole (RR)", "Vaccin contre la rougeole et la rubéole", [9, 18], 2, true, true),
      Vaccine("DTP (Rappel)", "Rappel Diphtérie, Tétanos, Coqueluche", [18, 72], 2, true, true) ]
  }

  /** The number of doses a catalog prescribes: the sum of its age-list lengths. */
  function TotalAges(vs: seq<Vaccine>): nat
  {
    if vs == [] then 0 else |vs[0].recommendedAges| + TotalAges(vs[1..])
  }

  lemma {:induction false} TotalAgesAppend(a: seq<Vaccine>, b: seq<Vaccine>)
    ensures TotalAges(a + b) == TotalAges(a) + TotalAges(b)
  {
    if a == [] {
      assert a + b == b;
    } else {
      assert (a + b)[0] == a[0] && (a + b)[1..] == a[1..] + b;
      TotalAgesAppend(a[1..], b);
    }
  }

  /**
   * The seeded catalog has seven mandatory, active vaccines whose dose counts
   * match their age lists, eighteen doses in all.
   */
  lemma NationalCatalogFacts()
    ensures |NationalCatalog()| == 7
    ensures forall v :: v in NationalCatalog() ==>
      v.totalDoses == |v.recommendedAges| && v.isMandatory && v.isActive
    ensures TotalAges(NationalCatalog()) == 18
  {
    var c := NationalCatalog();
    assert TotalAges(c[6..]) == 2;
    assert TotalAges(c[5..]) == 4;
    assert TotalAges(c[4..]) == 7;
    assert TotalAges(c[3..]) == 11;
    assert TotalAges(c[2..]) == 14;
    assert TotalAges(c[1..]) == 17;
  }

  /**
   * `seedVaccines` (admin): deletes every vaccine, then inserts the national
   * calendar under fresh ids, reporting 7.
   */
  method SeedVaccines(db: Db, caller: Actor) returns (count: nat)
    requires db.Valid() && caller.role == Admin
    modifies db`vaccines, db`nextId
    ensures db.Valid()
    ensures count == 7 == |NationalCatalog()|
    ensures db.vaccines == Numbered(old(db.nextId), NationalCatalog())
    ensures db.nextId == old(db.nextId) + 7
  {
    assert |NationalCatalog()| == 7 by {
      NationalCatalogFacts();
    }
    db.ReplaceVaccines(NationalCatalog());
    count := |NationalCatalog()|;
  }
}
