/** The records in which runtimes and bindings travel between the services. */
module Records {
  import opened Domain

  datatype ConfigRef = ConfigRef(setID: string, key: string, versionID: string, version: int, definitionChecksum: string)

  datatype ArtifactRef = ArtifactRef(
    id: string, schemaVersion: string, checksum: string, storageRef: string, runtimeLoader: string, capabilities: seq<string>)

  datatype RuntimeRecord = RuntimeRecord(scope: Scope, config: ConfigRef, artifact: ArtifactRef, activatedAt: Time)

  datatype ActiveBinding = ActiveBinding(binding: Binding, fields: seq<Field>, runtime: RuntimeRecord)
}
