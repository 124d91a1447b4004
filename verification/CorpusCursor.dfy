/**
 Checkpoints of a connection, the token that guards a provider read, and the one-time
 recovery rewinds.
 */
module CorpusCursor {
  import opened Basics
  import MailDelta
  import MailRecovery

  /** A provider's checkpoint, as far as the recoveries look into it.  `epoch` is the
      recovery mark of that provider's kind. */
  datatype Checkpoint =
    | Google(epoch: Option<nat>, cursor: nat)
    | Microsoft(epoch: Option<nat>, delta: Option<MailDelta.State>, cursor: nat)
    | Other(cursor: nat)

  datatype Status = Unknown | Finished | Partial | Error | Refused

  datatype Connection = Connection(
    complete: Option<Checkpoint>,
    resume: Option<Checkpoint>,
    gmail: Option<nat>,
    outlook: Option<nat>,
    status: Status,
    scanned: nat)
  {
    /** What the snapshot token covers of a connection. */
    function Cursor(): Position { Position(complete, resume, gmail, outlook) }

    /** The checkpoint the next read starts from. */
    function Effective(): Option<Checkpoint> {
      if resume.Some? then resume else complete
    }
  }

  datatype Position = Position(complete: Option<Checkpoint>, resume: Option<Checkpoint>, gmail: Option<nat>,
      outlook: Option<nat>)

  const ABSENT := Connection(None, None, None, None, Unknown, 0)

  /** How a read starts: the checkpoint it is given, the epochs its commit records, and
      which of them a rewind of this read introduced. */
  datatype Opening = Opening(
    given: Option<Checkpoint>,
    gmail: Option<nat>,
    outlook: Option<nat>,
    gmailRewound: bool,
    outlookRewound: bool)

  /** The first recovery asks for a new Gmail baseline once, when a document of the old
      shape is stored.  `fits` is the size bound on an encoded checkpoint. */
  function RecoverGmail(prior: Connection, oldShape: bool, fits: Checkpoint -> bool): Opening {
    var current := prior.Effective();
    if prior.gmail.Some? then Opening(current, prior.gmail, None, false, false)
    else if !oldShape || current.None? || !current.value.Google? then Opening(current, None, None, false, false)
    else if current.value.epoch.Some? then Opening(current, current.value.epoch, None, false, false)
    else
      var marked := Google(Some(1), current.value.cursor);
      if fits(marked) then Opening(Some(marked), Some(1), None, true, false)
      else Opening(current, None, None, false, false)
  }

  /** The second replays the Outlook page of a failed cycle once. */
  function Start(prior: Connection, oldShape: bool, fits: Checkpoint -> bool): Opening {
    var o := RecoverGmail(prior, oldShape, fits);
    if prior.outlook.Some? then o.(outlook := prior.outlook)
    else if !prior.status.Error? || o.given.None? || !o.given.value.Microsoft? || o.given.value.delta.None? then o
    else if !o.given.value.delta.value.WellFormed() then o
    else
      var marked := Microsoft(Some(1), Some(MailRecovery.Rewound(o.given.value.delta.value)), o.given.value.cursor);
      if fits(marked) then o.(given := Some(marked), outlook := Some(1), outlookRewound := true) else o
  }

  /** The entry a committed result leaves. */
  function Entry(prior: Connection, o: Opening, checkpoint: Option<Checkpoint>, complete: bool,
                 status: Status, scanned: nat): Connection
  {
    Connection(
      if complete then checkpoint else prior.complete,
      if complete then None else if checkpoint.Some? then checkpoint else prior.resume,
      o.gmail, o.outlook, status, scanned)
  }

  /** A read starts from the stored checkpoint, unless it is the one read whose commit
      will introduce a recovery epoch. */
  lemma StartsFromStored(prior: Connection, oldShape: bool, fits: Checkpoint -> bool)
    ensures
      var o := Start(prior, oldShape, fits);
      && (!o.gmailRewound && !o.outlookRewound ==>
            o.given == if prior.resume.Some? then prior.resume else prior.complete)
      && (o.gmailRewound ==> prior.gmail.None? && o.gmail.Some?)
      && (o.outlookRewound ==> prior.outlook.None? && o.outlook.Some?)
      && (prior.gmail.Some? ==> o.gmail == prior.gmail)
      && (prior.outlook.Some? ==> o.outlook == prior.outlook)
      && !(o.gmailRewound && o.outlookRewound)
  {
  }

  /** When a read rewinds, and from where: Gmail once a document of the old shape is stored,
      Outlook after a failed cycle; each only while no epoch of its kind is recorded. */
  lemma RewindsExactly(prior: Connection, oldShape: bool, fits: Checkpoint -> bool)
    ensures
      var o, from := Start(prior, oldShape, fits), if prior.resume.Some? then prior.resume else prior.complete;
      && (o.gmailRewound <==>
            && prior.gmail.None? && oldShape && from.Some? && from.value.Google? && from.value.epoch.None?
            && fits(Google(Some(1), from.value.cursor)))
      && (o.gmailRewound ==> o.given == Some(Google(Some(1), from.value.cursor)))
      && (o.outlookRewound <==>
            && prior.outlook.None? && prior.status.Error? && from.Some? && from.value.Microsoft?
            && from.value.delta.Some? && from.value.delta.value.WellFormed()
            && fits(Microsoft(Some(1), Some(MailRecovery.Rewound(from.value.delta.value)), from.value.cursor)))
      && (o.outlookRewound ==>
            o.given == Some(Microsoft(Some(1), Some(MailRecovery.Rewound(from.value.delta.value)), from.value.cursor)))
  {
  }

  /** What a committed result stored is what the next read starts from: its checkpoint, or if
      an incomplete one had none, whatever the read before it had; unless that next read
      introduces a recovery epoch. */
  lemma NextReadGoesOn(prior: Connection, o: Opening, checkpoint: Option<Checkpoint>, complete: bool, status: Status,
      scanned: nat, oldShape: bool, fits: Checkpoint -> bool)
    ensures
      var entry := Entry(prior, o, checkpoint, complete, status, scanned);
      var next := Start(entry, oldShape, fits);
      && (!next.gmailRewound && !next.outlookRewound ==>
            next.given ==
            if complete || checkpoint.Some? then checkpoint
            else if prior.resume.Some? then prior.resume
            else prior.complete)
      && (next.gmailRewound ==> o.gmail.None?) && (next.outlookRewound ==> o.outlook.None? && status.Error?)
  {
  }
}
