/** An uploaded laboratory result (server/models/LabResult.js). */
module LabResultModel {
  import opened Common

  datatype TestType = Blood | Urine | Xray | Scan | AllergyTest | Genetic | OtherTest

  datatype LabStatus = LabPending | Reviewed | Normal | Abnormal

  datatype LabResult = LabResult(
    child: Id,
    uploadedBy: Id,
    title: string,
    description: Option<string>,
    testType: TestType,
    testDate: int,
    fileName: string,
    fileType: string,
    fileSize: int,
    filePath: string,
    fileData: Option<string>,
    status: LabStatus,
    doctorComments: Option<string>,
    reviewedBy: Option<Id>,
    reviewedAt: Option<int>)
}
