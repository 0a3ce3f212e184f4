/** The Velociraptor writes a handler can ask for. */
module Backend {
  datatype Scope = Scope(clientIDs: seq<string>, labelName: string, all: bool)

  datatype Write =
    | CollectArtifact(clientID: string, artifact: string, parameters: map<string, string>)
    | CancelFlow(clientID: string, flowID: string)
    | DownloadUpload(clientID: string, flowID: string, uploadName: string, maxBytes: int)
    | StartHunt(artifact: string, parameters: map<string, string>, scope: Scope, maxClients: int)
    | CancelHunt(huntID: string)
}
