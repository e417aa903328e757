/** The attachment plan: the dictionary the planner fills and the services share. */
module AttachmentPlans {
  import opened Text
  import opened Paths
  import opened Graphs
  import opened ContextStore

  /** The local identities `resolve_identity` gives to one dataset. */
  datatype DatasetTarget = DatasetTarget(
    subject: string, id: string, location: string, ontology: string, entity: string)

  /** What inspection found in one dataset, and its target once resolved. */
  datatype Dataset = Dataset(
    path: Path,
    file: Path,
    sourceSubject: string,
    sourceContainer: string,
    sourceOntologies: seq<string>,
    sourceEntities: seq<string>,
    target: Option<DatasetTarget>)

  datatype BackupEntry = BackupEntry(source: Path, backup: Path)

  class AttachmentPlan {
    const root: Path
    const containerPath: Path
    const containerFile: Path
    const storageFile: Path
    const source: Identity
    const snapshot: map<string, Option<Value>>
    /** Names the plan object when it is stored in the context. */
    const handle: nat
    var datasets: seq<Dataset>
    var target: Option<Identity>
    var backupDir: Option<Path>
    /** Empty when the plan has no backups. */
    var backups: seq<BackupEntry>

    constructor (
      root: Path, containerPath: Path, containerFile: Path, storageFile: Path,
      source: Identity, snapshot: map<string, Option<Value>>, handle: nat, datasets: seq<Dataset>)
      ensures this.root == root && this.containerPath == containerPath
      ensures this.containerFile == containerFile && this.storageFile == storageFile
      ensures this.source == source && this.snapshot == snapshot && this.handle == handle
      ensures this.datasets == datasets && target == None && backupDir == None && backups == []
    {
      this.root, this.containerPath := root, containerPath;
      this.containerFile, this.storageFile := containerFile, storageFile;
      this.source, this.snapshot, this.handle := source, snapshot, handle;
      this.datasets, target, backupDir, backups := datasets, None, None, [];
    }

    /** The files one attachment rewrites, in the order they are backed up. */
    function SourceFiles(): seq<Path>
      reads this`datasets
    {
      [containerFile, storageFile] + FilesOf(datasets)
    }
  }

  function FilesOf(datasets: seq<Dataset>): seq<Path> {
    seq(|datasets|, i requires 0 <= i < |datasets| => datasets[i].file)
  }
}
