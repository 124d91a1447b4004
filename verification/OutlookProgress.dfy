/**
 A round of the Outlook mail source over finite feeds ends once its messages can be read.
 */
module OutlookProgress {
  import opened Basics
  import opened MailDelta
  import opened MailRounds
  import opened MailRecovery
  import opened OutlookSync

  predicate Usable(mail: Mail) {
    mail.delta.Some? ==> Sound(mail.delta.value)
  }

  /** Every changed message can be read or is missing, and no candidate's read breaks; the
      connector may refuse to tell about candidates. */
  predicate Readable(r: Result, details: Details) {
    r.Ok? && forall n | 0 <= n < |r.changes| + |r.removals| ::
      !details(n).Broken? && (n < |r.changes| ==> !details(n).Refused?)
  }

  lemma {:induction false} ReadableChanges(changes: seq<Change>, details: Details)
    requires forall c <- changes :: c.item.id.Some?
    requires forall n | 0 <= n < |changes| :: details(n).Found? || details(n).Missing?
    ensures ChangeDocuments(changes, details).Some?
  {
    if changes == [] {
    } else {
      ReadableChanges(changes[..|changes| - 1], details);
    }
  }

  lemma WorkingIsSound(mail: Mail)
    requires Usable(mail)
    ensures Sound(Working(mail.delta)) && !Working(mail.delta).phase.Complete?
  {
  }

  /** The round whose messages can be read does not fail, and is done or nearer its end. */
  lemma {:induction false} RoundMovesOn(reader: Reader, feed: Feed, mail: Mail, details: Details, rejected: bool)
    requires Finite(reader, feed) && Usable(mail) && !mail.done && Readable(Step(reader, mail.delta), details)
    ensures
      var t := OutlookSync.Round(mail, reader, details, rejected);
      && !t.failed && Usable(t.mail) && t.mail.delta.Some?
      && (t.mail.done <==> t.mail.delta.value.phase.Complete?)
      && (t.mail.done || Nearer(feed, t.mail.delta.value, Working(mail.delta)))
  {
    WorkingIsSound(mail);
    var s, r := Working(mail.delta), Step(reader, mail.delta);
    assert r == Step(reader, Some(s));
    StepProgresses(reader, feed, s);
    StepNames(reader, mail.delta);
    ReadableChanges(r.changes, details);
    BrokenExactly(r.removals, details, |r.changes|);
  }

  /** Details of messages that are all there or known to be missing. */
  ghost predicate Answers(details: Details) {
    forall n :: details(n).Found? || details(n).Missing?
  }

  lemma {:induction false} AnsweredRound(reader: Reader, feed: Feed, mail: Mail, details: Details)
    requires Finite(reader, feed) && Usable(mail) && !mail.done && Answers(details)
    ensures
      var t := OutlookSync.Round(mail, reader, details, false);
      && Usable(t.mail) && t.mail.delta.Some?
      && (t.mail.done || Nearer(feed, Working(t.mail.delta), Working(mail.delta)))
  {
    WorkingIsSound(mail);
    StepProgresses(reader, feed, Working(mail.delta));
    assert Step(reader, mail.delta) == Step(reader, Some(Working(mail.delta)));
    RoundMovesOn(reader, feed, mail, details, false);
  }

  /** However the reads of a round failed before, one call after another that can read what it
      asks for ends it: the checkpoints they leave, of which only the last is done.  That this
      function terminates is that one is. */
  ghost function Rounds(reader: Reader, feed: Feed, mail: Mail, details: nat -> Details, i: nat): (mails: seq<Mail>)
    requires Finite(reader, feed) && Usable(mail) && !mail.done && forall n :: Answers(details(n))
    ensures |mails| > 0 && forall k | 0 <= k < |mails| :: mails[k].done <==> k == |mails| - 1
    decreases PhaseRank(Working(mail.delta)), FoldersLeft(Working(mail.delta)), PagesLeft(feed, Working(mail.delta))
  {
    AnsweredRound(reader, feed, mail, details(i));
    var next := OutlookSync.Round(mail, reader, details(i), false).mail;
    if next.done then [next] else [next] + Rounds(reader, feed, next, details, i + 1)
  }

  lemma FailedIsUsable(mail: Mail, rejected: bool)
    requires Usable(mail)
    ensures Usable(Failed(mail, rejected).mail)
  {
    if mail.delta.Some? {
      RepairsKeepSound(mail.delta.value);
    }
  }

  /** Whatever its reads come to, a round leaves a checkpoint the next one can go on from. */
  lemma {:induction false} RoundsGoOn(reader: Reader, feed: Feed, mail: Mail, details: Details, rejected: bool)
    requires Finite(reader, feed) && Usable(mail) && !mail.done
    ensures Usable(OutlookSync.Round(mail, reader, details, rejected).mail)
  {
    WorkingIsSound(mail);
    var r := Step(reader, mail.delta);
    assert r == Step(reader, Some(Working(mail.delta)));
    StepProgresses(reader, feed, Working(mail.delta));
    StepNames(reader, mail.delta);
    FailedIsUsable(mail, rejected);
    FailedIsUsable(mail.(unconfirmed := mail.unconfirmed || Confirm(r.removals, details, |r.changes|).unconfirmed),
                   rejected);
  }
}
