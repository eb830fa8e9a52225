/** One remote copy and what it owns, with failure or interruption possible wherever it waits. */
module CopyTransfer {
  import opened Common

  /** How a wait ends. An interruption drops the operation and goes straight to cleanup. */
  datatype Wait = Done | Fails | Interrupted

  /** What the server makes of a copy request; with `ReplyLost` it is admitted, but the caller learns only of an error. */
  datatype Admission = Admitted | ReplyLost | Refused

  datatype TransferEnd = Completed | Errored | PollFails | PollInterrupted

  /** `Displaced` means the private path holds something else after the file was published. */
  datatype Placing = Placed | Displaced | PlaceFails

  datatype Deletion = Deleted | NotFound | DeleteFails

  /** Every choice the surroundings make during a run, in the order of the waits. */
  datatype Script =
    | UploadRun(prelude: Wait, fileOpened: Wait, sent: Wait, confirmed: Wait)
    | DownloadRun(prelude: Wait, checked: Wait, creates: bool, created: Wait, requested: Wait, streamed: Wait, placing: Placing)
    | CopyRun(prelude: Wait, admission: Admission, admitted: Wait, end: TransferEnd)

  datatype CleanupScript = CleanupScript(upload: Deletion, transfer: Deletion, removed: bool)

  datatype Outcome = Succeeded | Failed | CleanupFailed

  /** An interruption loses the race against an operation that is already done, never one that still waits. */
  predicate Stops(wait: Wait) {
    wait != Done
  }

  class Transfer {
    // What the transfer owns.
    var staging: bool
    var stagingCreation: Option<bool>      // the creation still runs; the value tells how it will end
    var admission: Option<Admission>       // the request still runs
    var remoteId: bool
    var uploadToken: bool
    var publication: bool

    // The world around it.
    var onDisk: bool                       // the private path exists
    ghost var streamWhole: bool            // the whole content was written to the private path
    ghost var published: bool
    ghost var uploadStarted: bool
    ghost var uploadConfirmed: bool
    ghost var uploadCancelled: bool        // a cancellation of the upload was sent
    ghost var transferAdmitted: bool       // the server runs, or ran, a transfer for this request
    ghost var transferEnded: bool
    ghost var transferSucceeded: bool
    ghost var transferCancelled: bool      // a cancellation of the transfer was sent
    ghost var idLearned: bool              // the server's answer with the transfer's id arrived

    constructor ()
      ensures Pristine()
    {
      staging, stagingCreation, admission := false, None, None;
      remoteId, uploadToken, publication := false, false, false;
      onDisk, streamWhole, published := false, false, false;
      uploadStarted, uploadConfirmed, uploadCancelled := false, false, false;
      transferAdmitted, transferEnded, transferSucceeded, transferCancelled, idLearned := false, false, false, false, false;
    }

    ghost predicate Pristine()
      reads this
    {
      && !staging && stagingCreation.None? && admission.None? && !remoteId && !uploadToken && !publication
      && !onDisk && !streamWhole && !published && !uploadStarted && !uploadConfirmed && !uploadCancelled
      && !transferAdmitted && !transferEnded && !transferSucceeded && !transferCancelled && !idLearned
    }

    /** Everything left behind in the world is in some field of the transfer. */
    ghost predicate Owned()
      reads this
    {
      && (onDisk ==> staging) && (stagingCreation.Some? ==> !onDisk && !staging)
      && (publication ==> streamWhole && staging) && (published ==> streamWhole)
      && (uploadStarted && !uploadConfirmed ==> uploadToken) && (uploadToken ==> uploadStarted && !uploadConfirmed)
      && (remoteId ==> transferAdmitted && idLearned && !transferEnded)
      && (transferAdmitted && idLearned && !transferEnded ==> remoteId)
      && (admission.Some? ==> !idLearned && !remoteId && !transferEnded
                              && (transferAdmitted <==> admission.value != Refused))
    }

    method Upload(fileOpened: Wait, sent: Wait, confirmed: Wait) returns (ok: bool)
      requires Pristine()
      modifies this
      ensures Owned() && !published && !onDisk && !transferAdmitted && !uploadCancelled && !transferCancelled && !publication
      ensures stagingCreation.None? && admission.None?
      ensures ok <==> uploadConfirmed
    {
      uploadToken, uploadStarted := true, true;
      if Stops(fileOpened) || Stops(sent) || Stops(confirmed) {
        return false;
      }
      uploadToken, uploadConfirmed := false, true;
      return true;
    }

    method Download(checked: Wait, creates: bool, created: Wait, requested: Wait, streamed: Wait) returns (ok: bool)
      requires Pristine()
      modifies this
      ensures Owned() && !published && !uploadStarted && !transferAdmitted && !uploadCancelled && !transferCancelled
      ensures admission.None? && (stagingCreation.Some? ==> stagingCreation == Some(creates))
      ensures ok <==> streamWhole
      ensures ok ==> publication && staging && stagingCreation.None?
      ensures publication ==> ok
    {
      if Stops(checked) {
        return false;
      }
      stagingCreation := Some(creates);
      if created == Interrupted {
        return false;
      }
      // The creation ended on its own.
      onDisk := creates;
      stagingCreation := None;
      if !creates {
        return false;
      }
      staging := true;
      if Stops(requested) || Stops(streamed) {
        return false;
      }
      streamWhole := true;
      publication := true;
      return true;
    }

    method Copy(request: Admission, admitted: Wait, end: TransferEnd) returns (ok: bool)
      requires Pristine()
      modifies this
      ensures Owned() && !published && !onDisk && !uploadStarted && !uploadCancelled && !transferCancelled && !publication
      ensures stagingCreation.None? && !staging && !uploadToken
      ensures ok <==> transferEnded && transferSucceeded
      ensures ok ==> admission.None? && !remoteId
      ensures admission.Some? <==> admitted == Interrupted
      ensures transferAdmitted <==> request != Refused
      ensures admission.None? ==> (idLearned <==> request == Admitted)
      ensures admission.Some? ==> admission == Some(request)
      ensures request != Admitted ==> !ok && !remoteId && !transferEnded
    {
      admission, transferAdmitted := Some(request), request != Refused;
      if admitted == Interrupted {
        return false;
      }
      admission := None;
      if request != Admitted {
        return false;
      }
      remoteId, idLearned := true, true;
      if end.PollFails? || end.PollInterrupted? {
        return false;
      }
      transferEnded, transferSucceeded := true, end.Completed?;
      // Nothing runs any more, so there is nothing left to cancel.
      remoteId := false;
      return end.Completed?;
    }

    /** Waits for the creation and the admission that still run, and takes over what they made. */
    method AwaitPending() returns (ok: bool)
      requires Owned()
      modifies this`stagingCreation, this`onDisk, this`staging, this`admission, this`remoteId, this`idLearned
      ensures ok <==> old(stagingCreation) != Some(false) && (old(admission).None? || old(admission) == Some(Admitted))
      ensures ok ==> stagingCreation.None? && admission.None?
      ensures ok ==> Owned() && idLearned == (old(idLearned) || old(admission.Some?))
      ensures ok ==> remoteId == (old(remoteId) || old(admission.Some?)) && onDisk == (old(onDisk) || old(stagingCreation.Some?))
    {
      if stagingCreation.Some? {
        var creates := stagingCreation.value;
        onDisk := creates;
        stagingCreation := None;
        if !creates {
          return false;
        }
        staging := true;
      }
      if admission.Some? {
        var request := admission.value;
        admission := None;
        if request != Admitted {
          return false;
        }
        remoteId, idLearned := true, true;
      }
      return true;
    }

    method SendCancellations(script: CleanupScript) returns (ok: bool)
      modifies this`uploadCancelled, this`transferCancelled
      ensures uploadCancelled == (old(uploadCancelled) || uploadToken)
      ensures transferCancelled == (old(transferCancelled) || remoteId)
      // The answer about the transfer replaces the one about the upload.
      ensures ok <==> if remoteId then script.transfer == Deleted else uploadToken ==> script.upload != DeleteFails
    {
      ok := true;
      if uploadToken {
        uploadCancelled := true;
        ok := script.upload != DeleteFails;
      }
      if remoteId {
        transferCancelled := true;
        ok := script.transfer == Deleted;
      }
    }

    /** Removes the private path if something is there. */
    method RemoveStaging(removed: bool) returns (ok: bool)
      requires onDisk ==> staging
      modifies this`staging, this`onDisk
      ensures ok <==> !onDisk
      ensures ok <==> old(onDisk) ==> removed
    {
      ok := true;
      if staging {
        staging := false;
        if onDisk {
          if !removed {
            return false;
          }
          onDisk := false;
        }
      }
    }

    /** Waits for what still runs, cancels what the server still does, removes the private path. */
    method Cleanup(failed: bool, script: CleanupScript) returns (ok: bool)
      requires Owned()
      modifies this`stagingCreation, this`onDisk, this`staging, this`admission, this`remoteId, this`idLearned,
        this`uploadCancelled, this`transferCancelled
      ensures ok <==>
        && old(stagingCreation) != Some(false) && (old(admission).None? || old(admission) == Some(Admitted))
        && (failed ==> if old(remoteId || admission.Some?) then script.transfer == Deleted
                       else uploadToken ==> script.upload != DeleteFails)
        && (old(onDisk || stagingCreation.Some?) ==> script.removed)
      ensures ok ==> !onDisk && idLearned == (old(idLearned) || old(admission.Some?))
      ensures ok && failed && uploadStarted && !uploadConfirmed ==> uploadCancelled
      ensures ok && failed && transferAdmitted && !transferEnded ==>
        transferCancelled == (old(transferCancelled) || idLearned)
      ensures !failed ==> uploadCancelled == old(uploadCancelled) && transferCancelled == old(transferCancelled)
    {
      ok := AwaitPending();
      if !ok {
        return;
      }
      var cancelled := true;
      if failed {
        cancelled := SendCancellations(script);
      }
      ok := RemoveStaging(script.removed);
      ok := ok && cancelled;
    }

    /** `run`: the operation, the publication of a complete download, and the cleanup. */
    method Run(script: Script, cleanup: CleanupScript) returns (outcome: Outcome)
      requires Pristine()
      modifies this
      // Nothing private is left behind, and only whole streams are ever published.
      ensures outcome != CleanupFailed ==> !onDisk
      ensures published ==> streamWhole
      // Success means what was asked for happened, and nothing was cancelled.
      ensures outcome == Succeeded ==>
        match script
        case UploadRun(_, _, _, _) => uploadConfirmed && !uploadCancelled
        case DownloadRun(_, _, _, _, _, _, _) => published
        case CopyRun(_, _, _, _) => transferSucceeded && !transferCancelled
      // Failure cancels every upload that is not confirmed and every transfer whose id is known.
      ensures outcome == Failed ==> !published
      ensures outcome == Failed && uploadStarted && !uploadConfirmed ==> uploadCancelled
      ensures outcome == Failed && transferAdmitted && !transferEnded ==>
        (transferCancelled <==> !(script.CopyRun? && script.admission == ReplyLost))
      // An interruption while the lost reply is still awaited is reported as a failed cleanup.
      ensures script.CopyRun? && script.prelude == Done && script.admission == ReplyLost && script.admitted == Interrupted ==>
        outcome == CleanupFailed
      // A lost reply that was awaited to its end leaves a transfer running that nobody cancels or reports.
      ensures script.CopyRun? && script.prelude == Done && script.admission == ReplyLost && script.admitted != Interrupted ==>
        outcome == Failed && transferAdmitted && !transferEnded && !transferCancelled
    {
      var ok := false;
      if script.prelude == Done {
        match script {
          case UploadRun(_, fileOpened, sent, confirmed) => ok := Upload(fileOpened, sent, confirmed);
          case DownloadRun(_, checked, creates, created, requested, streamed, _) =>
            ok := Download(checked, creates, created, requested, streamed);
          case CopyRun(_, request, admitted, end) => ok := Copy(request, admitted, end);
        }
      }
      if ok && publication {
        publication := false;
        if staging {
          if script.placing == PlaceFails {
            ok := false;
          } else {
            published := true;
            onDisk := script.placing == Displaced;
          }
        }
      }
      var cleaned := Cleanup(!ok, cleanup);
      outcome := if !cleaned then CleanupFailed else if ok then Succeeded else Failed;
    }
  }
}
