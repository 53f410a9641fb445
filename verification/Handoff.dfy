/** Moving a system from its source host to one of several destinations, as a transition system. Each host
    has durable state, which a crash keeps, and volatile state, which it loses; between any two durable
    writes either host may stop. Messages may be lost, repeated or arrive at any later time; an upload in
    progress dies with its sender. */
module Handoff {
  import opened Options

  type Id = string
  type Location = string

  datatype Phase = Prepared | Frozen | Retired | Active

  /** An exported snapshot; its digest is taken as injective, and no two exports are the same archive. */
  datatype Archive = Archive(number: nat, data: string, revision: nat, frozen: bool, id: Id, target: Location)

  datatype Transfer = Transfer(
    id: Id, target: Location, phase: Phase, snapshot: Option<Archive>, revision: nat,
    locationSaved: bool, approved: bool)

  datatype Cancelled = Cancelled(target: Location, cleaned: bool)

  /** Where the source's one running migration stands: `executeHandoff` and `finishHandoff`. */
  datatype Job =
    | Idle
    | Froze(transfer: Transfer)
    | Exported(transfer: Transfer, archive: Archive)
    | Uploading(transfer: Transfer, archive: Archive)
    | Finishing(transfer: Transfer)

  /** `data` to `cancelled` are durable; `exports` and `frozenData` record history for the specification. */
  datatype Source = Source(
    up: bool, running: bool, job: Job,
    data: Option<string>, revision: nat, transfer: Option<Transfer>, cancelled: map<Id, Cancelled>,
    exports: nat, frozenData: map<Id, string>)

  datatype Status = ReceiverPrepared | ReceiverReady | ReceiverCancelled | ReceiverActive

  datatype Receiver = Receiver(id: Id, snapshot: Option<Archive>, status: Status)

  /** A staged candidate: what was received, and the transfer under which it was made active, if it was. */
  datatype Candidate = Candidate(archive: Archive, activated: Option<Transfer>)

  /** Where the destination's receiving handler stands. */
  datatype Handler =
    | Waiting
    | Staging(archive: Archive, written: bool)
    | Activating(permit: Transfer, step: ActivationStep)

  datatype ActivationStep = SavePermit | MarkActive | Install | Open | SaveActive

  /** `receiver`, `candidates` and `installed` are durable. */
  datatype Destination = Destination(
    up: bool, running: bool, handler: Handler,
    receiver: Option<Receiver>, candidates: map<Id, Candidate>, installed: Option<Candidate>)

  datatype Message =
    | PrepareRequest(id: Id, at: Location)
    | PrepareReply(id: Id, at: Location)
    | ReadyReply(archive: Archive)
    | CancelRequest(id: Id, at: Location)
    | CancelReply(id: Id, at: Location)
    | ActivateRequest(permit: Transfer)
    | ActivateReply(id: Id, at: Location)

  datatype System = System(source: Source, destinations: map<Location, Destination>, net: set<Message>)

  const EMPTY_HOST := Destination(true, false, Waiting, None, map[], None)

  function Start(data: string, places: set<Location>): System {
    System(Source(true, true, Idle, Some(data), 1, None, map[], 0, map[]),
           map l | l in places :: EMPTY_HOST, {})
  }

  predicate IsRetired(s: Source) {
    s.transfer.Some? && s.transfer.value.phase == Retired
  }

  predicate IsFrozen(s: Source) {
    s.transfer.Some? && s.transfer.value.phase == Frozen
  }

  predicate InTransfer(s: Source, id: Id) {
    s.transfer.Some? && s.transfer.value.id == id
  }

  /** A host delivers information: the source while not retired, a destination once its runtime is open. */
  predicate SourceServes(s: System) {
    s.source.running && !IsRetired(s.source)
  }

  predicate DestinationServes(s: System, l: Location) {
    l in s.destinations && s.destinations[l].running
  }

  datatype Action =
    // source
    | WriteData(data: string)
    | ControlChange
    | AskPrepare(id: Id, at: Location)
    | PrepareTransfer(id: Id, at: Location)
    | Approve
    | Cancel
    | Execute(locationSaved: bool)
    | Export
    | Upload
    | Retire
    | SendPermit
    | Finish
    | AbandonJob
    | SendCancel(id: Id)
    | MarkClean(id: Id)
    | SourceCrash
    | SourceStart
    // destination
    | ReceivePrepare(id: Id, at: Location)
    | ReceiveCancel(id: Id, at: Location)
    | ReceiveArchive(at: Location)
    | WriteCandidate(at: Location)
    | SaveReady(at: Location)
    | ReceivePermit(permit: Transfer, at: Location)
    | Activate(at: Location)
    | AbandonHandler(at: Location)
    | DestinationCrash(at: Location)
    | DestinationStart(at: Location)

  // ---------------------------------------------------------------- source

  /** `cancelHandoff` inside a control save. */
  function CancelTransfer(s: Source): Source
    requires s.transfer.Some?
  {
    s.(transfer := None, revision := s.revision + 1,
       cancelled := s.cancelled[s.transfer.value.id := Cancelled(s.transfer.value.target, false)])
  }

  /** The source's part of each action; None when its guard refuses. */
  function SourceStep(s: System, a: Action): Option<System> {
    var src := s.source;
    match a
    // information changes only while no transfer is frozen or retired
    case WriteData(data) =>
      if src.running && !IsFrozen(src) && !IsRetired(src) then Some(s.(source := src.(data := Some(data)))) else None
    // any other control save, such as a management proposal; possible while frozen, refused once retired
    case ControlChange =>
      if src.running && !IsRetired(src) then Some(s.(source := src.(revision := src.revision + 1))) else None
    case AskPrepare(id, at) =>
      if src.running && !IsRetired(src) && !InTransfer(src, id) && id !in src.cancelled && at in s.destinations
      then Some(s.(net := s.net + {PrepareRequest(id, at)})) else None
    // `PrepareHandoff`, after the destination answered
    case PrepareTransfer(id, at) =>
      if src.running && PrepareReply(id, at) in s.net && id !in src.cancelled && src.transfer == None && at in s.destinations
      then Some(s.(source := src.(revision := src.revision + 1,
                                  transfer := Some(Transfer(id, at, Prepared, None, src.revision + 1, false, false)))))
      else None
    // `DecideHandoff` with acceptance
    case Approve =>
      if src.running && src.transfer.Some? && src.transfer.value.phase == Prepared
      then Some(s.(source := src.(revision := src.revision + 1,
                                  transfer := Some(src.transfer.value.(approved := true, revision := src.revision + 1)))))
      else None
    // `CancelHandoff`, a declined approval, or a right reduced while frozen
    case Cancel =>
      if src.running && src.transfer.Some? && !IsRetired(src) then Some(s.(source := CancelTransfer(src))) else None
    // `executeHandoff` up to and including `FreezeHandoff`; a retired transfer goes straight to its finish,
    // with or without an open runtime
    case Execute(locationSaved) =>
      if !src.up || src.job != Idle || src.transfer == None then None
      else
        var t := src.transfer.value;
        (match t.phase
         case Retired => Some(s.(source := src.(job := Finishing(t))))
         case Frozen =>
           if src.running && (forall id | id in src.cancelled :: src.cancelled[id].cleaned)
           then Some(s.(source := src.(job := Froze(t)))) else None
         case Prepared =>
           if src.running && locationSaved && t.approved && (forall id | id in src.cancelled :: src.cancelled[id].cleaned)
              && src.data.Some?
           then
             var frozen := t.(phase := Frozen, locationSaved := true, revision := src.revision + 1);
             Some(s.(source := src.(transfer := Some(frozen), revision := src.revision + 1, job := Froze(frozen),
                                    frozenData := src.frozenData[t.id := src.data.value])))
           else None
         case Active => None)
    // `ExportHandoff`: the archive carries whatever data and control are current
    case Export =>
      if src.running && src.job.Froze? && src.data.Some?
      then
        var t := src.job.transfer;
        var archive := Archive(src.exports, src.data.value, src.revision, src.transfer == Some(t), t.id, t.target);
        Some(s.(source := src.(exports := src.exports + 1, job := Exported(t, archive))))
      else None
    // the upload starts only if no control decision came between
    case Upload =>
      if src.running && src.job.Exported? && src.revision == src.job.transfer.revision
      then Some(s.(source := src.(job := Uploading(src.job.transfer, src.job.archive)))) else None
    // `RetireHandoff`, on the answer to this upload
    case Retire =>
      if src.running && src.job.Uploading? && ReadyReply(src.job.archive) in s.net && IsFrozen(src)
         && src.transfer.value.id == src.job.transfer.id && src.revision == src.job.transfer.revision
      then
        var retired := src.transfer.value.(phase := Retired, snapshot := Some(src.job.archive), revision := src.revision + 1);
        Some(s.(source := src.(transfer := Some(retired), revision := src.revision + 1, job := Finishing(retired))))
      else None
    case SendPermit =>
      if src.up && src.job.Finishing? then Some(s.(net := s.net + {ActivateRequest(src.job.transfer)})) else None
    // the destination answered: close the runtime and remove the source's copy
    case Finish =>
      if src.up && src.job.Finishing? && ActivateReply(src.job.transfer.id, src.job.transfer.target) in s.net
      then Some(s.(source := src.(running := false, data := None, job := Idle))) else None
    case AbandonJob => Some(s.(source := src.(job := Idle)))
    // `cleanCancelled`, which needs the transfer lock and an open runtime
    case SendCancel(id) =>
      if src.running && src.job.Idle? && id in src.cancelled && !src.cancelled[id].cleaned
      then Some(s.(net := s.net + {CancelRequest(id, src.cancelled[id].target)})) else None
    case MarkClean(id) =>
      if src.running && src.job.Idle? && id in src.cancelled && !src.cancelled[id].cleaned
         && CancelReply(id, src.cancelled[id].target) in s.net
      then Some(s.(source := src.(revision := src.revision + 1,
                                  cancelled := src.cancelled[id := src.cancelled[id].(cleaned := true)])))
      else None
    case SourceCrash => Some(s.(source := src.(up := false, running := false, job := Idle)))
    // the start-up choice of a host without a source of its own
    case SourceStart => if src.up then None else Some(s.(source := src.(up := true, running := !IsRetired(src))))
    case _ => None
  }

  // ---------------------------------------------------------------- destination

  /** `ActivateHandoff` on a staged candidate: repeatable with the same permit. */
  function MakeActive(c: Candidate, permit: Transfer): Option<Candidate> {
    match c.activated
    case Some(t) =>
      if t.id == permit.id && t.snapshot == permit.snapshot && t.target == permit.target then Some(c) else None
    case None =>
      if c.archive.frozen && permit.phase == Retired && c.archive.id == permit.id && c.archive.target == permit.target
         && permit.revision == c.archive.revision + 1 && permit.locationSaved && permit.snapshot.Some?
      then Some(c.(activated := Some(permit.(phase := Active)))) else None
  }

  /** One durable or volatile step of the activation handler; it gives up where the code returns an error. */
  function ActivationMove(d: Destination): (r: Destination)
    requires d.handler.Activating? && d.receiver.Some?
  {
    var permit := d.handler.permit;
    match d.handler.step
    case SavePermit => d.(handler := Activating(permit, MarkActive))
    case MarkActive =>
      if d.installed.Some? then
        // data is already in place: it must be this transfer's
        if d.installed.value.activated.Some? && d.installed.value.activated.value.id == permit.id
        then d.(handler := Activating(permit, Open)) else d.(handler := Waiting)
      else if permit.id in d.candidates && MakeActive(d.candidates[permit.id], permit).Some? then
        d.(handler := Activating(permit, Install),
           candidates := d.candidates[permit.id := MakeActive(d.candidates[permit.id], permit).value])
      else d.(handler := Waiting)
    case Install =>
      if permit.id in d.candidates then
        d.(handler := Activating(permit, Open), installed := Some(d.candidates[permit.id]), candidates := d.candidates - {permit.id})
      else d.(handler := Waiting)
    case Open => d.(handler := Activating(permit, SaveActive), running := true)
    case SaveActive => d.(handler := Waiting, receiver := Some(d.receiver.value.(status := ReceiverActive)),
                          candidates := d.candidates - {permit.id})
  }

  /** The handler of one destination, its durable state and the replies it sends. */
  function DestinationStep(s: System, d: Destination, a: Action): Option<(Destination, set<Message>)> {
    match a
    case ReceivePrepare(id, at) =>
      if !d.up || !d.handler.Waiting? || PrepareRequest(id, at) !in s.net then None
      else if d.receiver.Some? && d.receiver.value.id == id then
        if d.receiver.value.status == ReceiverCancelled then None else Some((d, {PrepareReply(id, at)}))
      else if d.receiver.Some? && d.receiver.value.status != ReceiverCancelled then None
      else Some((d.(receiver := Some(Receiver(id, None, ReceiverPrepared))), {PrepareReply(id, at)}))
    // a delayed cleanup speaks of its own transfer only
    case ReceiveCancel(id, at) =>
      if !d.up || !d.handler.Waiting? || CancelRequest(id, at) !in s.net then None
      else if d.receiver == None || d.receiver.value.id != id then
        Some((d.(candidates := d.candidates - {id}), {CancelReply(id, at)}))
      else if d.receiver.value.status == ReceiverActive then None
      else Some((d.(receiver := Some(d.receiver.value.(status := ReceiverCancelled)), candidates := d.candidates - {id}),
                 {CancelReply(id, at)}))
    // the body of the upload in progress arrives completely
    case ReceiveArchive(at) =>
      if !d.up || !d.handler.Waiting? || !s.source.job.Uploading? || s.source.job.transfer.target != at || d.receiver == None
      then None
      else
        var archive, r := s.source.job.archive, d.receiver.value;
        if r.id != s.source.job.transfer.id || r.status == ReceiverCancelled || r.status == ReceiverActive then None
        else if r.status == ReceiverReady && r.snapshot == Some(archive) then Some((d, {ReadyReply(archive)}))
        else Some((d.(handler := Staging(archive, false), candidates := d.candidates - {r.id}), {}))
    case WriteCandidate(at) =>
      if !d.handler.Staging? || d.handler.written || !d.handler.archive.frozen || d.handler.archive.target != at
         || d.receiver == None || d.handler.archive.id != d.receiver.value.id then None
      else Some((d.(handler := Staging(d.handler.archive, true),
                    candidates := d.candidates[d.handler.archive.id := Candidate(d.handler.archive, None)]), {}))
    case SaveReady(at) =>
      if !d.handler.Staging? || !d.handler.written || d.receiver == None then None
      else Some((d.(handler := Waiting,
                    receiver := Some(d.receiver.value.(snapshot := Some(d.handler.archive), status := ReceiverReady))),
                 {ReadyReply(d.handler.archive)}))
    // a permit the source signed; everything it says must be what was received and checked
    case ReceivePermit(permit, at) =>
      if !d.up || !d.handler.Waiting? || ActivateRequest(permit) !in s.net || d.receiver == None then None
      else
        var r := d.receiver.value;
        if r.id != permit.id || permit.snapshot != r.snapshot || permit.target != at || r.status == ReceiverCancelled then None
        else if r.status == ReceiverActive then Some((d, {ActivateReply(permit.id, at)}))
        else Some((d.(handler := Activating(permit, SavePermit)), {}))
    case Activate(at) =>
      if !d.handler.Activating? || d.receiver == None then None
      else Some((ActivationMove(d),
                 if d.handler.step == SaveActive then {ActivateReply(d.handler.permit.id, at)} else {}))
    case AbandonHandler(at) => Some((d.(handler := Waiting), {}))
    case DestinationCrash(at) => Some((d.(up := false, running := false, handler := Waiting), {}))
    // the start-up choice of a host installed to receive: only an activated system is opened
    case DestinationStart(at) =>
      if d.up then None
      else Some((d.(up := true, running := d.installed.Some? && d.installed.value.activated.Some?), {}))
    case _ => None
  }

  function At(a: Action): Option<Location> {
    if a.ReceivePrepare? || a.ReceiveCancel? || a.ReceiveArchive? || a.WriteCandidate? || a.SaveReady? || a.ReceivePermit?
       || a.Activate? || a.AbandonHandler? || a.DestinationCrash? || a.DestinationStart? then Some(a.at) else None
  }

  /** One action; a refused action changes nothing. */
  function Do(s: System, a: Action): System {
    if At(a).Some? then
      if At(a).value !in s.destinations then s
      else
        match DestinationStep(s, s.destinations[At(a).value], a)
        case None => s
        case Some((d, replies)) => s.(destinations := s.destinations[At(a).value := d], net := s.net + replies)
    else
      match SourceStep(s, a) case None => s case Some(t) => t
  }

  function Run(s: System, actions: seq<Action>): System {
    if actions == [] then s else Do(Run(s, actions[..|actions| - 1]), actions[|actions| - 1])
  }
}
