/** The vaccine catalog entry (server/models/Vaccine.js). */
module VaccineModel {

  /**
   * A vaccine of the catalog. `recommendedAges` holds the age in months of
   * each dose; nothing ties `totalDoses` to its length.
   */
  datatype Vaccine = Vaccine(
    name: string,
    description: string,
    recommendedAges: seq<int>,
    totalDoses: int,
    isMandatory: bool,
    isActive: bool)

  /** A vaccine as `Vaccine.create` stores it when the body omits the defaulted fields. */
  function NewVaccine(name: string, description: string, ages: seq<int>): (v: Vaccine)
    ensures v.totalDoses == 1 && v.isMandatory && v.isActive
    ensures v.name == name && v.recommendedAges == ages
  {
    Vaccine(name, description, ages, 1, true, true)
  }
}
