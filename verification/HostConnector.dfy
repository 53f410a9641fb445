/** One call through the connector, in the order of its code: what it does before the request goes out and after
    the answer comes is what the protocol's actions say. */
module HostConnector {
  import opened Options
  import opened Text
  import opened AssetLog
  import C = Connector

  datatype Answer = Lost | ErrorResult | Success

  datatype Outcome = NoGeneration | SaveFailed | NotPrepared | Unavailable | Returned(isError: bool)

  /** The connector's record of pending operations, in the process and in the vault. */
  class HostConnector {
    const system: string
    const principal: string
    var memory: C.Book
    var saved: C.Book

    ghost predicate Shows(s: C.System)
      reads this
    {
      s.memory == memory && s.saved == saved
    }

    function Drawn(key: string, kind: string, generation: uint64, id: string): OperationIdentity {
      OperationIdentity(id, system, principal, generation, kind, key)
    }

    constructor (system: string, principal: string, saved: C.Book)
      ensures this.system == system && this.principal == principal && this.memory == saved && this.saved == saved
    {
      this.system, this.principal, this.memory, this.saved := system, principal, saved, saved;
    }

    /** `save`: the vault takes the record, or keeps the one it has. */
    method Save(ok: bool)
      modifies this`saved
      ensures saved == if ok then memory else old(saved)
    {
      if ok {
        saved := memory;
      }
    }

    /** `callProduct` up to the request: the pending operation of this request in the mode it was drawn in, or a new one
        in the mode asked for, recorded and saved first. `s` is the system as the call finds it. */
    method Ask(key: string, kind: string, generation: Option<uint64>, id: string, mode: bool, saves: bool, prepared: bool,
               ghost s: C.System)
      returns (sent: Option<(OperationIdentity, bool)>, failed: Outcome)
      requires Shows(s)
      modifies this
      ensures key in s.memory.operations ==> Shows(s) && (sent.Some? <==> prepared)
      ensures key !in s.memory.operations && (generation == None || generation.value == 0) ==>
                Shows(s) && sent == None && failed == NoGeneration
      ensures key !in s.memory.operations && generation.Some? && generation.value != 0 ==>
                var record := C.Record(Drawn(key, kind, generation.value, id), mode, saves);
                && (C.Enabled(s, record) ==> Shows(C.Do(s, record)))
                && (sent.Some? <==> saves && prepared) && (!saves ==> failed == SaveFailed)
      // the request goes out as recorded, and if it was drawn in this call it is in the vault
      ensures sent.Some? ==> key in memory.operations && sent.value.0 == memory.operations[key]
      ensures sent.Some? ==> sent.value.1 == if key in s.memory.operations then key in s.memory.deferred else mode
      ensures sent.Some? && s.memory.deferred <= s.memory.operations.Keys ==> (sent.value.1 <==> key in memory.deferred)
      ensures sent.Some? && key !in s.memory.operations ==> saved == memory
    {
      var deferred := key in memory.deferred;
      if key !in memory.operations {
        if generation == None || generation.value == 0 {
          return None, NoGeneration;
        }
        deferred := mode;
        memory := C.Book(memory.operations[key := Drawn(key, kind, generation.value, id)],
                         if deferred then memory.deferred + {key} else memory.deferred);
        Save(saves);
        if !saves {
          return None, SaveFailed;
        }
      }
      if !prepared {
        return None, NotPrepared;
      }
      return Some((memory.operations[key], deferred)), Unavailable;
    }

    /** `callProduct` from the answer on: only a success lets the operation go, and it is told only when the record without
        the operation was saved. `t` is the system as the answer finds it. */
    method Conclude(key: string, answer: Answer, saves: bool, ghost t: C.System) returns (r: Outcome)
      requires Shows(t)
      modifies this
      ensures var end := C.Acknowledge(key, if saves then C.Told else C.SaveFailed);
              answer == Success && C.Enabled(t, end) ==>
                && Shows(C.Do(t, end))
                && (t.memory.operations[key] !in t.done ==>
                      (r == Returned(false) <==> t.memory.operations[key] in C.Do(t, end).done))
      ensures answer != Success ==> Shows(t)
      ensures r == match answer case Lost => Unavailable case ErrorResult => Returned(true)
                                case Success => if saves then Returned(false) else SaveFailed
    {
      if answer == Lost {
        return Unavailable;
      }
      if answer == Success {
        memory := C.Book(memory.operations - {key}, memory.deferred - {key});
        Save(saves);
        if !saves {
          return SaveFailed;
        }
      }
      return Returned(answer == ErrorResult);
    }
  }
}
