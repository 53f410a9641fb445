/** What every reachable state of a handoff keeps, however the steps of both hosts, messages and crashes are
    interleaved. */
module HandoffInvariant {
  import opened Options
  import opened Handoff

  // ---------------------------------------------------------------- invariants

  /** The archive is the export of this frozen transfer, made while nothing had changed since the freeze. */
  ghost predicate Faithful(src: Source, t: Transfer, a: Archive) {
    a.frozen && a.id == t.id && a.target == t.target && t.id in src.frozenData && a.data == src.frozenData[t.id]
  }

  ghost predicate SourceInv(s: System) {
    var src := s.source;
    && (src.running ==> src.up)
    && (src.data == None ==> IsRetired(src))
    && (src.transfer.Some? ==>
          var t := src.transfer.value;
          && t.id !in src.cancelled && t.target in s.destinations && t.phase != Active && t.revision <= src.revision
          && (t.phase == Frozen ==> t.locationSaved && t.id in src.frozenData && src.data == Some(src.frozenData[t.id]))
          && (t.phase == Retired ==>
                && t.locationSaved && t.snapshot.Some? && Faithful(src, t, t.snapshot.value)
                && t.revision == t.snapshot.value.revision + 1
                && (src.data.Some? ==> src.data == Some(src.frozenData[t.id]))))
  }

  ghost predicate JobInv(s: System) {
    var src := s.source;
    match src.job
    case Idle => true
    case Finishing(t) => IsRetired(src) && src.transfer == Some(t)
    case Froze(t) => BeforeRetirement(src, t)
    case Exported(t, a) =>
      && BeforeRetirement(src, t) && a.number < src.exports && t.revision <= a.revision <= src.revision
      && (a.revision == t.revision ==> Faithful(src, t, a))
    case Uploading(t, a) =>
      BeforeRetirement(src, t) && a.number < src.exports && a.revision == t.revision && Faithful(src, t, a)
  }

  /** A migration under way holds a frozen transfer; while the control revision stands, it is the current one. */
  ghost predicate BeforeRetirement(src: Source, t: Transfer) {
    && !IsRetired(src) && t.phase == Frozen && t.revision <= src.revision && t.id in src.frozenData
    && (src.revision == t.revision ==> src.transfer == Some(t))
    && (InTransfer(src, t.id) ==> src.transfer == Some(t)) && (!InTransfer(src, t.id) ==> t.id in src.cancelled)
  }

  ghost predicate NetInv(s: System) {
    && (forall m | m in s.net && m.ActivateRequest? :: IsRetired(s.source) && s.source.transfer == Some(m.permit))
    && (forall m | m in s.net && m.CancelRequest? :: m.id in s.source.cancelled)
    && ReadyInv(s) && RepliesInv(s)
  }

  /** Answers to uploads speak of exported archives, and every ready receiver has answered. */
  ghost predicate ReadyInv(s: System) {
    && (forall m | m in s.net && m.ReadyReply? :: m.archive.number < s.source.exports)
    && forall l | l in s.destinations && s.destinations[l].receiver.Some? && s.destinations[l].receiver.value.status == ReceiverReady ::
         s.destinations[l].receiver.value.snapshot.Some? && ReadyReply(s.destinations[l].receiver.value.snapshot.value) in s.net
  }

  /** A destination that answered an activation has recorded it. */
  ghost predicate RepliesInv(s: System) {
    forall m | m in s.net && m.ActivateReply? ::
      m.at in s.destinations && s.destinations[m.at].receiver.Some?
      && s.destinations[m.at].receiver.value.status == ReceiverActive && s.destinations[m.at].receiver.value.id == m.id
  }

  /** The destination has this archive received, checked, staged and recorded. */
  ghost predicate HoldsReady(d: Destination, a: Archive) {
    && !d.handler.Staging? && d.installed == None
    && d.receiver == Some(Receiver(a.id, Some(a), ReceiverReady))
    && a.id in d.candidates && d.candidates[a.id] == Candidate(a, None)
  }

  /** An archive nobody has been sent is neither answered nor being staged. */
  ghost predicate ExportInv(s: System) {
    s.source.job.Exported? ==>
      && ReadyReply(s.source.job.archive) !in s.net
      && forall l | l in s.destinations && s.destinations[l].handler.Staging? ::
           s.destinations[l].handler.archive != s.source.job.archive
  }

  /** Once the answer to the upload in progress is out, its destination is ready for it. */
  ghost predicate UploadInv(s: System) {
    var src := s.source;
    ExportInv(s) && (src.job.Uploading? && ReadyReply(src.job.archive) in s.net && src.transfer == Some(src.job.transfer) ==>
      src.job.transfer.target in s.destinations && HoldsReady(s.destinations[src.job.transfer.target], src.job.archive))
  }

  /** What one destination keeps, given the source. */
  ghost predicate DestinationInv(src: Source, l: Location, d: Destination) {
    && (d.running ==> d.up && d.installed.Some?)
    && (!d.handler.Waiting? ==> d.up && d.receiver.Some?)
    && (d.installed.Some? ==> Due(src, l) && IsSystemOf(src, d.installed.value))
    && (forall id | id in d.candidates && d.candidates[id].activated.Some? ::
          Due(src, l) && IsSystemOf(src, d.candidates[id]))
    && (forall id | id in d.candidates :: d.candidates[id].archive.id == id)
    && (d.receiver.Some? && d.receiver.value.status == ReceiverActive ==> d.installed.Some?)
    && (d.receiver.Some? && d.receiver.value.status == ReceiverReady ==> d.receiver.value.snapshot.Some?)
    && (d.handler.Staging? ==>
          d.handler.archive.number < src.exports
          && (d.handler.written ==> d.handler.archive.id == d.receiver.value.id && d.handler.archive.id in d.candidates
                                    && d.handler.archive.target == l && d.handler.archive.frozen
                                    && d.candidates[d.handler.archive.id] == Candidate(d.handler.archive, None)))
    && (d.handler.Activating? ==>
          && Due(src, l) && src.transfer == Some(d.handler.permit)
          && (d.handler.step == Open ==> d.installed.Some?)
          && (d.handler.step == SaveActive ==> d.installed.Some? && d.running)
          && (d.handler.step == Install ==> d.installed == None && d.handler.permit.id in d.candidates
                                            && d.candidates[d.handler.permit.id].activated.Some?))
    && (Due(src, l) ==> Follows(src.transfer.value, d))
  }

  /** The source is retired in favour of this place. */
  ghost predicate Due(src: Source, l: Location) {
    IsRetired(src) && src.transfer.value.target == l
  }

  /** The candidate is the system that was retired: its snapshot, active under its transfer. */
  ghost predicate IsSystemOf(src: Source, c: Candidate) {
    && IsRetired(src) && src.transfer.value.snapshot == Some(c.archive)
    && c.activated == Some(src.transfer.value.(phase := Active))
  }

  /** Nothing the destination still needs has been lost. */
  ghost predicate Follows(t: Transfer, d: Destination) {
    && !d.handler.Staging?
    && d.receiver.Some? && d.receiver.value.id == t.id && d.receiver.value.snapshot == t.snapshot
    && (d.receiver.value.status == ReceiverReady || d.receiver.value.status == ReceiverActive)
    && (d.installed == None ==> t.id in d.candidates && t.snapshot == Some(d.candidates[t.id].archive))
  }

  ghost predicate Inv(s: System) {
    && SourceInv(s) && JobInv(s) && NetInv(s) && UploadInv(s)
    && forall l | l in s.destinations :: DestinationInv(s.source, l, s.destinations[l])
  }

  // ---------------------------------------------------------------- every action keeps them

  /** A source change before any retirement touches no destination's invariant. */
  lemma BeforeRetirementKept(s: System, t: System)
    requires Inv(s) && !IsRetired(s.source) && !IsRetired(t.source)
    requires t.destinations == s.destinations && t.source.exports >= s.source.exports
    ensures forall l | l in t.destinations :: DestinationInv(t.source, l, t.destinations[l])
  {
    forall l | l in t.destinations ensures DestinationInv(t.source, l, t.destinations[l]) {
      assert DestinationInv(s.source, l, s.destinations[l]);
    }
  }

  lemma RetirementKept(s: System, t: System)
    requires Inv(s) && t.destinations == s.destinations && t.source.transfer == s.source.transfer
    requires t.source.exports == s.source.exports
    ensures forall l | l in t.destinations :: DestinationInv(t.source, l, t.destinations[l])
  {
    forall l | l in t.destinations ensures DestinationInv(t.source, l, t.destinations[l]) {
      assert DestinationInv(s.source, l, s.destinations[l]);
    }
  }

  lemma RetireKeeps(s: System)
    requires Inv(s) && SourceStep(s, Retire).Some?
    ensures Inv(Do(s, Retire))
  {
    var t := Do(s, Retire);
    var job := s.source.job;
    assert s.source.transfer == Some(job.transfer);
    forall l | l in t.destinations ensures DestinationInv(t.source, l, t.destinations[l]) {
      assert DestinationInv(s.source, l, s.destinations[l]);
    }
  }

  /** The steps that write the transfer or what was cancelled. */
  predicate Decides(a: Action) {
    a.PrepareTransfer? || a.Approve? || a.Cancel? || a.Execute? || a.MarkClean? || a == Retire
  }

  lemma SourceKeepsSource(s: System, a: Action)
    requires SourceInv(s) && JobInv(s) && At(a) == None && a != Retire
    ensures SourceInv(Do(s, a))
  {
    if Decides(a) { DecisionKeepsSource(s, a); } else { OtherKeepsSource(s, a); }
  }

  lemma DecisionKeepsSource(s: System, a: Action)
    requires SourceInv(s) && Decides(a) && a != Retire
    ensures SourceInv(Do(s, a))
  {
  }

  lemma OtherKeepsSource(s: System, a: Action)
    requires SourceInv(s) && JobInv(s) && At(a) == None && !Decides(a)
    ensures SourceInv(Do(s, a))
  {
  }

  lemma SourceKeepsJob(s: System, a: Action)
    requires SourceInv(s) && JobInv(s) && At(a) == None && a != Retire
    ensures JobInv(Do(s, a))
  {
  }

  lemma SourceKeepsNet(s: System, a: Action)
    requires SourceInv(s) && JobInv(s) && NetInv(s) && At(a) == None && a != Retire
    ensures NetInv(Do(s, a))
  {
    if a.AskPrepare? || a == SendPermit || a.SendCancel? {
      SendingKeepsNet(s, a);
    } else {
      SilentSource(s, a);
    }
  }

  lemma SendingKeepsNet(s: System, a: Action)
    requires JobInv(s) && NetInv(s) && (a.AskPrepare? || a == SendPermit || a.SendCancel?)
    ensures NetInv(Do(s, a))
  {
  }

  /** The other steps of the source send nothing and take nothing back that a message relies on. */
  lemma SilentSource(s: System, a: Action)
    requires SourceInv(s) && JobInv(s) && At(a) == None && a != Retire
    requires !a.AskPrepare? && a != SendPermit && !a.SendCancel?
    ensures var t := Do(s, a);
            && t.net == s.net && t.destinations == s.destinations && t.source.exports >= s.source.exports
            && s.source.cancelled.Keys <= t.source.cancelled.Keys
            && (IsRetired(s.source) ==> t.source.transfer == s.source.transfer)
  {
  }

  lemma SourceKeepsExport(s: System, a: Action)
    requires Inv(s) && At(a) == None && a != Retire
    ensures ExportInv(Do(s, a))
  {
    var t := Do(s, a);
    if t.source.job.Exported? {
      assert s.source.job.Exported? || a == Export;
      forall l | l in t.destinations && t.destinations[l].handler.Staging?
        ensures t.destinations[l].handler.archive != t.source.job.archive
      {
        assert DestinationInv(s.source, l, s.destinations[l]);
      }
    }
  }

  lemma SourceKeepsUpload(s: System, a: Action)
    requires SourceInv(s) && JobInv(s) && NetInv(s) && UploadInv(s) && ExportInv(Do(s, a)) && At(a) == None && a != Retire
    ensures UploadInv(Do(s, a))
  {
  }

  lemma SourceKeeps(s: System, a: Action)
    requires Inv(s) && At(a) == None && a != Retire
    ensures Inv(Do(s, a))
  {
    var t := Do(s, a);
    SourceKeepsSource(s, a);
    SourceKeepsJob(s, a);
    SourceKeepsNet(s, a);
    SourceKeepsExport(s, a);
    SourceKeepsUpload(s, a);
    SourceFrame(s, a);
    if t != s {
      if IsRetired(s.source) {
        RetirementKept(s, t);
      } else {
        BeforeRetirementKept(s, t);
      }
    }
  }

  lemma SourceFrame(s: System, a: Action)
    requires SourceInv(s) && JobInv(s) && At(a) == None && a != Retire
    ensures var t := Do(s, a);
            && t.destinations == s.destinations && t.source.exports >= s.source.exports
            && (IsRetired(t.source) <==> IsRetired(s.source))
            && (IsRetired(s.source) ==> t.source.transfer == s.source.transfer && t.source.exports == s.source.exports)
  {
  }

  // ---------------------------------------------------------------- destination actions

  /** What the rest of the system may rely on when one destination moves. */
  lemma DestinationKeepsItself(s: System, l: Location, a: Action)
    requires Inv(s) && l in s.destinations && DestinationStep(s, s.destinations[l], a).Some? && At(a) == Some(l)
    ensures DestinationInv(s.source, l, DestinationStep(s, s.destinations[l], a).value.0)
  {
    assert DestinationInv(s.source, l, s.destinations[l]);
    if a.Activate? { ActivationKeeps(s, l); }
    else if a.ReceiveArchive? || a.WriteCandidate? || a.SaveReady? { StagingKeeps(s, l, a); }
    else { RecordKeeps(s, l, a); }
  }

  /** Receiving an archive, staging it and recording that it is ready. */
  lemma StagingKeeps(s: System, l: Location, a: Action)
    requires SourceInv(s) && JobInv(s) && l in s.destinations && DestinationInv(s.source, l, s.destinations[l])
    requires (a.ReceiveArchive? || a.WriteCandidate? || a.SaveReady?) && At(a) == Some(l)
    requires DestinationStep(s, s.destinations[l], a).Some?
    ensures DestinationInv(s.source, l, DestinationStep(s, s.destinations[l], a).value.0)
  {
  }

  lemma RecordKeeps(s: System, l: Location, a: Action)
    requires SourceInv(s) && NetInv(s) && l in s.destinations && DestinationInv(s.source, l, s.destinations[l])
    requires !a.ReceiveArchive? && !a.WriteCandidate? && !a.SaveReady? && !a.Activate? && At(a) == Some(l)
    requires DestinationStep(s, s.destinations[l], a).Some?
    ensures DestinationInv(s.source, l, DestinationStep(s, s.destinations[l], a).value.0)
  {
  }

  lemma ActivationKeeps(s: System, l: Location)
    requires Inv(s) && l in s.destinations && s.destinations[l].handler.Activating? && s.destinations[l].receiver.Some?
    ensures DestinationInv(s.source, l, ActivationMove(s.destinations[l]))
  {
    assert DestinationInv(s.source, l, s.destinations[l]);
    if s.destinations[l].handler.step == MarkActive { MarkingKeeps(s, l); } else { InstallingKeeps(s, l); }
  }

  lemma MarkingKeeps(s: System, l: Location)
    requires SourceInv(s) && l in s.destinations && DestinationInv(s.source, l, s.destinations[l])
    requires s.destinations[l].handler.Activating? && s.destinations[l].handler.step == MarkActive
    ensures DestinationInv(s.source, l, ActivationMove(s.destinations[l]))
  {
  }

  lemma InstallingKeeps(s: System, l: Location)
    requires SourceInv(s) && l in s.destinations && DestinationInv(s.source, l, s.destinations[l])
    requires s.destinations[l].handler.Activating? && s.destinations[l].handler.step != MarkActive
    ensures DestinationInv(s.source, l, ActivationMove(s.destinations[l]))
  {
  }

  lemma DestinationKeepsNet(s: System, l: Location, a: Action)
    requires NetInv(s) && l in s.destinations && DestinationInv(s.source, l, s.destinations[l])
    requires DestinationStep(s, s.destinations[l], a).Some? && At(a) == Some(l)
    ensures NetInv(Do(s, a))
  {
    DestinationKeepsReplies(s, l, a);
    DestinationKeepsReady(s, l, a);
    DestinationOnlyReplies(s, l, a);
  }

  /** A destination sends no requests. */
  lemma DestinationOnlyReplies(s: System, l: Location, a: Action)
    requires l in s.destinations && DestinationStep(s, s.destinations[l], a).Some? && At(a) == Some(l)
    ensures Do(s, a).source == s.source
    ensures forall m | m in Do(s, a).net && (m.ActivateRequest? || m.CancelRequest?) :: m in s.net
  {
  }

  lemma DestinationKeepsReady(s: System, l: Location, a: Action)
    requires ReadyInv(s) && l in s.destinations && DestinationInv(s.source, l, s.destinations[l])
    requires DestinationStep(s, s.destinations[l], a).Some? && At(a) == Some(l)
    ensures ReadyInv(Do(s, a))
  {
  }

  lemma DestinationKeepsReplies(s: System, l: Location, a: Action)
    requires RepliesInv(s) && l in s.destinations && DestinationInv(s.source, l, s.destinations[l])
    requires DestinationStep(s, s.destinations[l], a).Some? && At(a) == Some(l)
    ensures RepliesInv(Do(s, a))
  {
    var d := s.destinations[l];
    var (after, replies) := DestinationStep(s, d, a).value;
    var t := Do(s, a);
    forall m | m in t.net && m.ActivateReply?
      ensures m.at in t.destinations && t.destinations[m.at].receiver.Some?
              && t.destinations[m.at].receiver.value.status == ReceiverActive && t.destinations[m.at].receiver.value.id == m.id
    {
      if m in s.net {
        if m.at == l { ActiveStays(s, l, a); }
      }
    }
  }

  /** An activated receiver is never taken back. */
  lemma ActiveStays(s: System, l: Location, a: Action)
    requires l in s.destinations && DestinationInv(s.source, l, s.destinations[l])
    requires DestinationStep(s, s.destinations[l], a).Some? && At(a) == Some(l)
    requires s.destinations[l].receiver.Some? && s.destinations[l].receiver.value.status == ReceiverActive
    ensures DestinationStep(s, s.destinations[l], a).value.0.receiver == s.destinations[l].receiver
  {
  }

  lemma DestinationKeepsUpload(s: System, l: Location, a: Action)
    requires SourceInv(s) && JobInv(s) && NetInv(s) && UploadInv(s)
    requires l in s.destinations && DestinationInv(s.source, l, s.destinations[l])
    requires DestinationStep(s, s.destinations[l], a).Some? && At(a) == Some(l)
    ensures UploadInv(Do(s, a))
  {
    DestinationKeepsExport(s, l, a);
  }

  lemma DestinationKeepsExport(s: System, l: Location, a: Action)
    requires NetInv(s) && ExportInv(s) && l in s.destinations && DestinationInv(s.source, l, s.destinations[l])
    requires DestinationStep(s, s.destinations[l], a).Some? && At(a) == Some(l)
    ensures ExportInv(Do(s, a))
  {
  }

  /** A change of one destination leaves the others' invariants. */
  lemma OthersStay(s: System, t: System, l: Location)
    requires Inv(s) && l in s.destinations && l in t.destinations
    requires t.source == s.source && t.destinations == s.destinations[l := t.destinations[l]]
    requires DestinationInv(s.source, l, t.destinations[l]) && NetInv(t) && UploadInv(t)
    ensures Inv(t)
  {
    forall m | m in t.destinations ensures DestinationInv(t.source, m, t.destinations[m]) {
      if m != l { assert DestinationInv(s.source, m, s.destinations[m]); }
    }
  }

  lemma DestinationKeeps(s: System, a: Action)
    requires Inv(s) && At(a).Some?
    ensures Inv(Do(s, a))
  {
    var l := At(a).value;
    if l in s.destinations && DestinationStep(s, s.destinations[l], a).Some? {
      var t := Do(s, a);
      assert DestinationInv(s.source, l, s.destinations[l]);
      DestinationKeepsItself(s, l, a);
      DestinationKeepsNet(s, l, a);
      DestinationKeepsUpload(s, l, a);
      OthersStay(s, t, l);
    }
  }

  lemma StepKeeps(s: System, a: Action)
    requires Inv(s)
    ensures Inv(Do(s, a))
  {
    if At(a).Some? {
      DestinationKeeps(s, a);
    } else if a == Retire {
      if SourceStep(s, a).Some? { RetireKeeps(s); }
    } else {
      SourceKeeps(s, a);
    }
  }

  /** Every state that any interleaving of the hosts, the network and crashes can reach keeps the invariant. */
  lemma {:induction false} ReachableInv(data: string, places: set<Location>, actions: seq<Action>)
    ensures Inv(Run(Start(data, places), actions))
    decreases |actions|
  {
    if actions != [] {
      ReachableInv(data, places, actions[..|actions| - 1]);
      StepKeeps(Run(Start(data, places), actions[..|actions| - 1]), actions[|actions| - 1]);
    }
  }
}
