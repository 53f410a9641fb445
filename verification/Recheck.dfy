/** Reusing earlier material: sources are checked in batches, and a resumed session keeps only the reads that the
    check found unchanged. */
module Recheck {

  /** One entry of the host's answer; `Other` is anything that is not an object. */
  datatype Reported = Other | Report(basis: string, status: string)

  datatype Check = Check(basis: string, status: string)

  const STATES := {"unchanged", "changed", "unavailable", "unverifiable"}

  /** The host's answer to the batch starting at a position; a failed call or a malformed answer is the empty list. */
  type Call = (nat, seq<string>) -> seq<Reported>

  const BATCH := 64

  function Min(a: nat, b: nat): nat { if a < b then a else b }

  function BatchAt(bases: seq<string>, begin: nat): seq<string>
    requires begin <= |bases|
  {
    bases[begin..Min(begin + BATCH, |bases|)]
  }

  /** What one answer says about one reference. */
  function Judge(checked: seq<Reported>, index: nat, ref: string): Check {
    if index < |checked| && checked[index].Report? && checked[index].basis == ref && checked[index].status in STATES
    then Check(ref, checked[index].status) else Check(ref, "unverifiable")
  }

  /** The verdict on material `i`, from the batch it is in. */
  function Verdict(bases: seq<string>, call: Call, i: nat): Check
    requires i < |bases|
  {
    var begin := i - i % BATCH;
    Judge(call(begin, BatchAt(bases, begin)), i % BATCH, bases[i])
  }

  /** `check_materials`: one verdict per material, in order, about that material. */
  method CheckMaterials(bases: seq<string>, call: Call) returns (results: seq<Check>)
    ensures |results| == |bases| && forall i :: 0 <= i < |bases| ==> results[i] == Verdict(bases, call, i)
  {
    results := [];
    var start := 0;
    while start < |bases|
      invariant start % BATCH == 0 && |results| == Min(start, |bases|)
      invariant forall i :: 0 <= i < |results| ==> results[i] == Verdict(bases, call, i)
    {
      var refs := BatchAt(bases, start);
      var checked := call(start, refs);
      for index := 0 to |refs|
        invariant |results| == start + index
        invariant forall i :: 0 <= i < |results| ==> results[i] == Verdict(bases, call, i)
      {
        PlaceInBatch(start, index);
        results := results + [Judge(checked, index, refs[index])];
      }
      start := start + BATCH;
    }
  }

  lemma PlaceInBatch(start: nat, index: nat)
    requires start % BATCH == 0 && index < BATCH
    ensures (start + index) % BATCH == index
  {
  }

  /** A verdict is about the material asked for, and `unchanged` only if the host said so of it, in its place. */
  lemma UnchangedWasSaid(bases: seq<string>, call: Call, i: nat)
    requires i < |bases|
    ensures var begin := i - i % BATCH;
            var checked := call(begin, BatchAt(bases, begin));
            && Verdict(bases, call, i).basis == bases[i] && Verdict(bases, call, i).status in STATES
            && (Verdict(bases, call, i).status == "unchanged" <==>
                  i % BATCH < |checked| && checked[i % BATCH] == Report(bases[i], "unchanged"))
  {
  }

  // ---------------------------------------------------------------- the resumed session

  /** A read with the basis its result carries. */
  datatype Read = Read(tool: string, id: string, basis: string)

  /** A trace entry: a single read, a grouped read whose rows may be errors, or anything else. */
  datatype Entry = Single(read: Read) | Grouped(rows: seq<Row>) | Lead(tool: string)

  datatype Row = Delivered(id: string, basis: string) | Failed

  function RowReads(rows: seq<Row>): seq<Read> {
    if rows == [] then []
    else
      var front, last := RowReads(rows[..|rows| - 1]), rows[|rows| - 1];
      match last case Delivered(id, basis) => front + [Read("ownward_evidence_read", id, basis)] case Failed => front
  }

  /** Every read in the trace; rows of a grouped read count as single ones. */
  function Reads(trace: seq<Entry>): seq<Read> {
    if trace == [] then []
    else
      var front, last := Reads(trace[..|trace| - 1]), trace[|trace| - 1];
      match last case Single(read) => front + [read] case Grouped(rows) => front + RowReads(rows) case Lead(_) => front
  }

  function Bases(found: seq<Read>): (r: seq<string>)
    ensures |r| == |found| && forall i :: 0 <= i < |r| ==> r[i] == found[i].basis
  {
    seq(|found|, i requires 0 <= i < |found| => found[i].basis)
  }

  /** The reads found unchanged, in order, as the new trace. */
  function Retained(found: seq<Read>, checked: seq<Check>): seq<Entry>
    requires |found| == |checked|
  {
    if found == [] then []
    else
      var n := |found| - 1;
      Retained(found[..n], checked[..n]) + if checked[n].status == "unchanged" then [Single(found[n])] else []
  }

  /** What is pending after these checks. */
  function Pending(pending: map<string, Check>, checked: seq<Check>): map<string, Check> {
    if checked == [] then pending
    else
      var front, last := Pending(pending, checked[..|checked| - 1]), checked[|checked| - 1];
      if last.status == "unchanged" then front - {last.basis} else front[last.basis := last]
  }

  predicate AllUnchanged(checked: seq<Check>) {
    forall i :: 0 <= i < |checked| ==> checked[i].status == "unchanged"
  }

  class UseSession {
    var trace: seq<Entry>
    var notes: string
    var pending: map<string, Check>
    var needsCheck: bool

    constructor (trace: seq<Entry>, notes: string, pending: map<string, Check>, needsCheck: bool)
      ensures this.trace == trace && this.notes == notes && this.pending == pending && this.needsCheck == needsCheck
    {
      this.trace, this.notes, this.pending, this.needsCheck := trace, notes, pending, needsCheck;
    }

    method CollectReads() returns (found: seq<Read>)
      ensures found == Reads(trace)
    {
      found := [];
      for i := 0 to |trace|
        invariant found == Reads(trace[..i])
      {
        assert trace[..i + 1][..i] == trace[..i];
        match trace[i]
        case Single(read) => found := found + [read];
        case Grouped(rows) => found := found + RowReads(rows);
        case Lead(_) =>
      }
      assert trace[..|trace|] == trace;
    }

    /** Sort the checked reads into those kept and what becomes pending, counting the unchanged. */
    method Sift(found: seq<Read>, checked: seq<Check>) returns (kept: seq<Entry>, left: map<string, Check>, valid: nat)
      requires |found| == |checked|
      ensures kept == Retained(found, checked) && left == Pending(pending, checked)
      ensures valid == |found| <==> AllUnchanged(checked)
    {
      kept, left, valid := [], pending, 0;
      for i := 0 to |found|
        invariant kept == Retained(found[..i], checked[..i]) && left == Pending(pending, checked[..i])
        invariant valid <= i && (valid == i <==> forall k :: 0 <= k < i ==> checked[k].status == "unchanged")
      {
        assert found[..i + 1][..i] == found[..i] && checked[..i + 1][..i] == checked[..i];
        if checked[i].status == "unchanged" {
          kept := kept + [Single(found[i])];
          valid := valid + 1;
          left := left - {checked[i].basis};
        } else {
          left := left[checked[i].basis := checked[i]];
        }
      }
      assert found[..|found|] == found && checked[..|checked|] == checked;
    }

    /** `_recheck` */
    method Recheck(call: Call)
      modifies this
      ensures !old(needsCheck) ==> trace == old(trace) && notes == old(notes) && pending == old(pending)
      ensures old(needsCheck) ==>
                var found := Reads(old(trace));
                var checked := seq(|found|, i requires 0 <= i < |found| => Verdict(Bases(found), call, i));
                && trace == Retained(found, checked) && pending == Pending(old(pending), checked)
                && notes == (if AllUnchanged(checked) && found != [] then old(notes) else "")
      ensures !needsCheck
    {
      if !needsCheck {
        return;
      }
      var found := CollectReads();
      var checked := CheckMaterials(Bases(found), call);
      assert checked == seq(|found|, i requires 0 <= i < |found| => Verdict(Bases(found), call, i));
      var kept, left, valid := Sift(found, checked);
      trace, pending := kept, left;
      if valid != |found| || |found| == 0 {
        notes := "";
      }
      needsCheck := false;
    }
  }

  /** Nothing is kept that was not read and freshly found unchanged, and nothing such is dropped. */
  lemma {:induction false} KeptAreUnchanged(found: seq<Read>, checked: seq<Check>, e: Entry)
    requires |found| == |checked|
    ensures e in Retained(found, checked) <==>
              exists i :: 0 <= i < |found| && checked[i].status == "unchanged" && e == Single(found[i])
  {
    if found != [] {
      var n := |found| - 1;
      KeptAreUnchanged(found[..n], checked[..n], e);
      if i :| 0 <= i < n && checked[..n][i].status == "unchanged" && e == Single(found[..n][i]) {
        assert checked[i].status == "unchanged" && e == Single(found[i]);
      }
    }
  }

  ghost predicate LastCheck(checked: seq<Check>, basis: string, i: nat) {
    i < |checked| && checked[i].basis == basis && forall j :: i < j < |checked| ==> checked[j].basis != basis
  }

  /** A basis is pending after the checks exactly when its last check did not find it unchanged; one that was not
      checked stays as it was. */
  lemma {:induction false} PendingIsLastCheck(pending: map<string, Check>, checked: seq<Check>, basis: string)
    ensures var after := Pending(pending, checked);
            && (forall i: nat | LastCheck(checked, basis, i) ::
                  if checked[i].status == "unchanged" then basis !in after else basis in after && after[basis] == checked[i])
            && ((forall i :: 0 <= i < |checked| ==> checked[i].basis != basis) ==>
                  (basis in after <==> basis in pending) && (basis in pending ==> after[basis] == pending[basis]))
  {
    if checked != [] {
      var n := |checked| - 1;
      PendingIsLastCheck(pending, checked[..n], basis);
      forall i: nat | LastCheck(checked, basis, i) && i < n ensures LastCheck(checked[..n], basis, i) { }
    }
  }
}
