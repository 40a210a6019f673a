/** The control messages of core/src/types.rs and their text form. */
module ControlMessages {
  import opened Common

  datatype ControlMessage =
    | Metadata(fileName: string, fileSize: nat, resume: bool, checksum: bool)
    | Ready
    | ResumeReady(offset: nat, prefixHash: Option<string>)
    | ResumeOk
    | RestartFromZero
    | Pause
    | Resume
    | RejectedUnwanted
    | RejectedAlreadyReceiving
    | RejectedAlreadySending
    | FileSent(hash: string)
    | ReceivedFileOk
    | ReceivedFileFailed
}
