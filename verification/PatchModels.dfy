/** The values a patch is made of. */
module PatchModels {
  import opened Base

  type Path = string

  type Files = map<Path, Bytes>

  datatype OperationType = Modify | Create | Delete

  datatype PatchFilePlan = PatchFilePlan(
    path: Path,
    operation: OperationType,
    preImageSha256: Option<Digest>,
    postImageSha256: Option<Digest>,
    preImage: Option<Bytes>,
    postImage: Option<Bytes>)

  datatype PatchFacts = PatchFacts(
    fileCount: nat,
    addedLines: nat,
    deletedLines: nat,
    touchesTestAssets: bool,
    touchesSensitivePaths: bool)

  datatype PreparedPatch = PreparedPatch(files: seq<PatchFilePlan>, facts: PatchFacts)

  function Lookup(files: Files, path: Path): Option<Bytes> {
    if path in files then Some(files[path]) else None
  }

  function PathsOf(plans: seq<PatchFilePlan>): set<Path> {
    set i | 0 <= i < |plans| :: plans[i].path
  }

  predicate DistinctPaths(plans: seq<PatchFilePlan>) {
    forall i, j :: 0 <= i < j < |plans| ==> plans[i].path != plans[j].path
  }

  /** What `prepare` promises of a plan: hashes of its images, and no post-image exactly when it deletes. */
  predicate WellFormedPlan(plan: PatchFilePlan) {
    && plan.preImageSha256 == Sha(plan.preImage)
    && plan.postImageSha256 == Sha(plan.postImage)
    && (plan.operation == Delete <==> plan.postImage == None)
    && (plan.operation == Create ==> plan.preImage == None)
    && (plan.operation == Delete ==> plan.preImage != None)
  }

  predicate WellFormed(plans: seq<PatchFilePlan>) {
    DistinctPaths(plans) && forall i :: 0 <= i < |plans| ==> WellFormedPlan(plans[i])
  }
}
