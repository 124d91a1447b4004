/**
 One round of the Outlook mail source: one page of the mail delta, whose changes and removal
 candidates are then read message by message.  The delta checkpoint moves only after every
 detail has been read.
 */
module OutlookSync {
  import opened Basics
  import opened MailDelta
  import opened MailRecovery

  /** How reading a message ends: it is missing when the provider does not know it; the
      connector may refuse it for another reason, and anything else may break. */
  datatype Detail = Found | Missing | Refused | Broken

  /** How the n-th message read of a round ends. */
  type Details = nat -> Detail

  datatype Delivery = Upsert(id: Id) | Delete(id: Id)

  /** The mail part of a checkpoint; `unconfirmed` is the coverage gap of a removal that
      could not be confirmed. */
  datatype Mail = Mail(delta: Option<State>, unconfirmed: bool, done: bool)

  /** The checkpoint of the round after a complete one. */
  function Restored(mail: Mail): Mail {
    Mail(mail.delta, false, false)
  }

  /** The documents of changes; none when a message could be neither read nor missed. */
  function ChangeDocuments(changes: seq<Change>, details: Details): Option<seq<Delivery>>
    requires forall c <- changes :: c.item.id.Some?
  {
    if changes == [] then Some([])
    else
      var n := |changes| - 1;
      var init, id := ChangeDocuments(changes[..n], details), changes[n].item.id.value;
      if init.None? then None
      else
        match details(n)
        case Found => Some(init.value + [Upsert(id)])
        case Missing => Some(init.value + [Delete(id)])
        case _ => None
  }

  datatype Confirmation = Confirmation(deliveries: seq<Delivery>, unconfirmed: bool, broken: bool)

  /** The documents of removal candidates, read after `before` other messages: one that is
      missing is deleted, one that is still found is kept up to date, and one the connector
      refuses to tell about is retained. */
  function Confirm(removals: seq<Removal>, details: Details, before: nat): Confirmation {
    if removals == [] then Confirmation([], false, false)
    else
      var n := |removals| - 1;
      var init, id := Confirm(removals[..n], details, before), removals[n].message;
      if init.broken then init
      else
        match details(before + n)
        case Found => init.(deliveries := init.deliveries + [Upsert(id)])
        case Missing => init.(deliveries := init.deliveries + [Delete(id)])
        case Refused => init.(unconfirmed := true)
        case Broken => init.(broken := true)
  }

  datatype Turn = Turn(mail: Mail, deliveries: seq<Delivery>, failed: bool)

  /** A failed round delivers nothing; when a continuation was rejected, the delta drops its
      continuations, or is dropped if it cannot be decoded. */
  function Failed(mail: Mail, rejected: bool): Turn {
    var cleared := if mail.delta.Some? && mail.delta.value.WellFormed() then Some(Cleared(mail.delta.value)) else None;
    Turn(if rejected then mail.(delta := cleared) else mail, [], true)
  }

  lemma {:induction false} ChangesNamed(folder: Id, items: seq<Entry>)
    requires Identified(items)
    ensures forall c <- Changes(folder, items) :: c.item.id.Some?
  {
    if items == [] {
    } else {
      ChangesNamed(folder, items[..|items| - 1]);
    }
  }

  /** A result names every message it reports. */
  lemma {:induction false} StepNames(reader: Reader, checkpoint: Option<State>)
    requires Step(reader, checkpoint).Ok?
    ensures forall c <- Step(reader, checkpoint).changes :: c.item.id.Some?
  {
    var s := Working(checkpoint);
    if s.phase.Messages? && s.index < |s.order| {
      ChangesNamed(s.order[s.index], reader(QueryOf(s)).value.items);
    }
  }

  /** The whole round as a function of the checkpoint, the connector and the details.  What
      fails may be a rejected continuation or not. */
  function Round(mail: Mail, reader: Reader, details: Details, rejected: bool): Turn {
    if mail.done then Turn(mail, [], false)
    else
      var r := Step(reader, mail.delta);
      if r.Invalid? then Failed(mail, rejected)
      else
        StepNames(reader, mail.delta);
        var changed := ChangeDocuments(r.changes, details);
        if changed.None? then Failed(mail, rejected)
        else
          var removed := Confirm(r.removals, details, |r.changes|);
          var told := mail.(unconfirmed := mail.unconfirmed || removed.unconfirmed);
          if removed.broken then Failed(told, rejected)
          else Turn(told.(delta := Some(r.checkpoint), done := r.complete), changed.value + removed.deliveries, false)
  }

  class MailSource {
    var mail: Mail

    constructor (mail: Mail)
      ensures this.mail == mail
    {
      this.mail := mail;
    }

    /** A round works on the checkpoint in place. */
    method SyncRound(reader: Reader, details: Details, rejected: bool)
      returns (documents: seq<Delivery>, failed: bool)
      modifies this
      ensures Turn(mail, documents, failed) == Round(old(mail), reader, details, rejected)
    {
      if mail.done { return [], false; }
      var r := Sync(reader, mail.delta);
      if r.Invalid? {
        Fail(rejected);
        return [], true;
      }
      StepNames(reader, mail.delta);
      var changed := ReadChanges(r.changes, details);
      if changed.None? {
        Fail(rejected);
        return [], true;
      }
      var removed, broken := ReadRemovals(r.removals, details, |r.changes|);
      if broken {
        Fail(rejected);
        return [], true;
      }
      mail := mail.(delta := Some(r.checkpoint));
      mail := mail.(done := r.complete);
      return changed.value + removed, false;
    }

    method Fail(rejected: bool)
      modifies this
      ensures mail == Failed(old(mail), rejected).mail
    {
      if rejected && mail.delta.Some? {
        var cleared := ClearContinuations(mail.delta.value);
        mail := mail.(delta := cleared);
      }
    }

    method ReadChanges(changes: seq<Change>, details: Details) returns (documents: Option<seq<Delivery>>)
      requires forall c <- changes :: c.item.id.Some?
      ensures documents == ChangeDocuments(changes, details)
    {
      var read: seq<Delivery> := [];
      for i := 0 to |changes|
        invariant ChangeDocuments(changes[..i], details) == Some(read)
      {
        assert changes[..i + 1][..i] == changes[..i];
        var id := changes[i].item.id.value;
        match details(i) {
          case Found => read := read + [Upsert(id)];
          case Missing => read := read + [Delete(id)];
          case _ =>
            UnreadStops(changes, details, i);
            return None;
        }
      }
      assert changes[..|changes|] == changes;
      return Some(read);
    }

    /** Records the gap of an unconfirmed removal as it meets it. */
    method ReadRemovals(removals: seq<Removal>, details: Details, before: nat)
      returns (documents: seq<Delivery>, broken: bool)
      modifies this
      ensures
        var c := Confirm(removals, details, before);
        && broken == c.broken && (!broken ==> documents == c.deliveries)
        && mail == old(mail).(unconfirmed := old(mail).unconfirmed || c.unconfirmed)
    {
      documents := [];
      for i := 0 to |removals|
        invariant Confirm(removals[..i], details, before).deliveries == documents
        invariant !Confirm(removals[..i], details, before).broken
        invariant mail == old(mail).(unconfirmed :=
                            old(mail).unconfirmed || Confirm(removals[..i], details, before).unconfirmed)
      {
        assert removals[..i + 1][..i] == removals[..i];
        var id := removals[i].message;
        match details(before + i) {
          case Found => documents := documents + [Upsert(id)];
          case Missing => documents := documents + [Delete(id)];
          case Refused => mail := mail.(unconfirmed := true);
          case Broken =>
            BreakStops(removals, details, before, i);
            return documents, true;
        }
      }
      assert removals[..|removals|] == removals;
      return documents, false;
    }
  }

  lemma {:induction false} UnreadStops(changes: seq<Change>, details: Details, i: nat)
    requires forall c <- changes :: c.item.id.Some?
    requires i < |changes| && (details(i).Refused? || details(i).Broken?)
    ensures ChangeDocuments(changes, details).None?
    decreases |changes|
  {
    if i < |changes| - 1 {
      UnreadStops(changes[..|changes| - 1], details, i);
    }
  }

  lemma {:induction false} BreakStops(removals: seq<Removal>, details: Details, before: nat, i: nat)
    requires i < |removals| && details(before + i).Broken?
    requires !Confirm(removals[..i], details, before).broken
    ensures Confirm(removals, details, before) == Confirm(removals[..i], details, before).(broken := true)
    decreases |removals|
  {
    if i < |removals| - 1 {
      assert removals[..|removals| - 1][..i] == removals[..i];
      BreakStops(removals[..|removals| - 1], details, before, i);
    }
  }

  /** Every change has its one document, in order. */
  lemma {:induction false} EachChangeDelivered(changes: seq<Change>, details: Details)
    requires forall c <- changes :: c.item.id.Some?
    requires ChangeDocuments(changes, details).Some?
    ensures
      var documents := ChangeDocuments(changes, details).value;
      && |documents| == |changes|
      && forall i | 0 <= i < |changes| :: changes[i].item.id == Some(documents[i].id)
  {
    if changes == [] {
    } else {
      EachChangeDelivered(changes[..|changes| - 1], details);
    }
  }

  function CandidateIds(removals: seq<Removal>): set<Id> {
    set r | r in removals :: r.message
  }

  /** Only candidates are delivered. */
  lemma {:induction false} OnlyCandidates(removals: seq<Removal>, details: Details, before: nat)
    ensures forall d <- Confirm(removals, details, before).deliveries :: d.id in CandidateIds(removals)
  {
    if removals == [] {
    } else {
      var n := |removals| - 1;
      var init := removals[..n];
      OnlyCandidates(init, details, before);
      assert forall r <- init :: r in removals;
      assert CandidateIds(init) <= CandidateIds(removals);
      assert removals[n] in removals && removals[n].message in CandidateIds(removals);
    }
  }

  /** No read of the candidates before position `n` broke. */
  predicate Unbroken(n: nat, details: Details, before: nat) {
    forall j | before <= j < before + n :: !details(j).Broken?
  }

  /** The candidates the connector refused to tell about, before anything broke. */
  function RefusedOf(removals: seq<Removal>, details: Details, before: nat): set<Id> {
    set i | 0 <= i < |removals| && details(before + i).Refused? && Unbroken(i, details, before) :: removals[i].message
  }

  lemma {:induction false} BrokenExactly(removals: seq<Removal>, details: Details, before: nat)
    ensures Confirm(removals, details, before).broken <==> !Unbroken(|removals|, details, before)
  {
    if removals == [] {
    } else {
      BrokenExactly(removals[..|removals| - 1], details, before);
    }
  }

  /** A removal is left unconfirmed exactly when the connector refused a candidate that was
      read before anything broke. */
  lemma {:induction false} UnconfirmedExactly(removals: seq<Removal>, details: Details, before: nat)
    ensures Confirm(removals, details, before).unconfirmed <==> RefusedOf(removals, details, before) != {}
  {
    if removals == [] {
    } else {
      var n := |removals| - 1;
      var init := removals[..n];
      UnconfirmedExactly(init, details, before);
      BrokenExactly(init, details, before);
      RefusedNext(removals, details, before);
    }
  }

  lemma {:induction false} RefusedNext(removals: seq<Removal>, details: Details, before: nat)
    requires removals != []
    ensures
      var n := |removals| - 1;
      RefusedOf(removals, details, before) ==
        RefusedOf(removals[..n], details, before) +
        if details(before + n).Refused? && Unbroken(n, details, before) then {removals[n].message} else {}
  {
    var n := |removals| - 1;
    forall i | 0 <= i < n ensures removals[..n][i] == removals[i] {}
  }

  /** Every candidate is delivered unless it was refused, or another read broke. */
  lemma {:induction false} CandidateDelivered(removals: seq<Removal>, details: Details, before: nat, i: nat)
    requires i < |removals| && !Confirm(removals, details, before).broken
    ensures details(before + i).Refused? ||
      exists d <- Confirm(removals, details, before).deliveries :: d.id == removals[i].message
    decreases |removals|
  {
    var n := |removals| - 1;
    var init := Confirm(removals[..n], details, before);
    if i < n {
      CandidateDelivered(removals[..n], details, before, i);
      if d :| d in init.deliveries && d.id == removals[i].message {
        assert d in Confirm(removals, details, before).deliveries;
      }
    } else if !details(before + n).Refused? {
      var c := Confirm(removals, details, before);
      assert c.deliveries[|c.deliveries| - 1] in c.deliveries;
    }
  }
}
