/**
  `attach_all_devices` and the per-incident outcomes it and the deny loops of `webhook_server.py` send.
 */
module AttachJob {
  import opened Wrappers

  /** `Malformed` makes `int(raw_imsi)` raise outside the loop's `try`, which ends the whole job. */
  datatype Imsi = Missing | Number(n: int) | Malformed

  datatype Device = Device(phone: string, imsi: Imsi)

  /** An incident context; `complete` when it has the keys a grant or denial is built from. */
  datatype Context = Context(phone: string, complete: bool)

  datatype Registration = Registration(devices: seq<Device>, incidents: seq<Context>)

  /** An incident is named by the position of its context. */
  datatype Outcome = Outcome(incident: nat, granted: bool)

  datatype Record = Record(phone: string, imsi: int, attached: bool)

  /** `_lookup_incident`: the first context with this phone number. */
  function Lookup(incidents: seq<Context>, phone: string): (r: Option<nat>)
    ensures r.Some? ==> r.value < |incidents| && incidents[r.value].phone == phone
    ensures r.Some? ==> forall i :: 0 <= i < r.value ==> incidents[i].phone != phone
    ensures r.None? <==> forall i :: 0 <= i < |incidents| ==> incidents[i].phone != phone
  {
    if incidents == [] then None
    else if incidents[0].phone == phone then Some(0)
    else
      var rest := Lookup(incidents[1..], phone);
      assert forall i :: 0 < i < |incidents| ==> incidents[i] == incidents[1..][i - 1];
      if rest.None? then None else Some(rest.value + 1)
  }

  function DeviceOutcome(reg: Registration, k: nat, attached: bool): seq<Outcome>
    requires k < |reg.devices|
  {
    var i := Lookup(reg.incidents, reg.devices[k].phone);
    if i.None? then [] else [Outcome(i.value, attached)]
  }

  /** The outcomes after the first `|results|` devices, each attached or failed as `results` says. */
  function AttachOutcomes(reg: Registration, results: seq<bool>): seq<Outcome>
    requires |results| <= |reg.devices|
  {
    if results == [] then []
    else
      var k := |results| - 1;
      AttachOutcomes(reg, results[..k]) + DeviceOutcome(reg, k, results[k])
  }

  predicate Incomplete(reg: Registration, k: nat)
    requires k < |reg.devices|
  {
    var i := Lookup(reg.incidents, reg.devices[k].phone);
    i.Some? && !reg.incidents[i.value].complete
  }

  /**
    The device ends the job: its IMSI cannot be read, or its incident context lacks a key, which raises when the
    grant is built and again in the handler when the denial is.
   */
  predicate Breaks(reg: Registration, k: nat)
    requires k < |reg.devices|
  {
    reg.devices[k].imsi.Malformed? || Incomplete(reg, k)
  }

  /** Context `i` is the first one with this phone number. */
  ghost predicate FirstContext(reg: Registration, phone: string, i: nat) {
    && i < |reg.incidents| && reg.incidents[i].phone == phone
    && forall j :: 0 <= j < i ==> reg.incidents[j].phone != phone
  }

  /** Told from the registration: the IMSI is unreadable, or the first context with the device's phone number lacks a key. */
  lemma BreaksExactly(reg: Registration, k: nat)
    requires k < |reg.devices|
    ensures Breaks(reg, k) <==>
              || reg.devices[k].imsi == Malformed
              || exists i: nat :: FirstContext(reg, reg.devices[k].phone, i) && !reg.incidents[i].complete
  {
    var found := Lookup(reg.incidents, reg.devices[k].phone);
    hide Lookup;
    assert found.Some? ==> FirstContext(reg, reg.devices[k].phone, found.value);
  }

  function FirstBreak(reg: Registration, from: nat): (n: nat)
    requires from <= |reg.devices|
    ensures from <= n <= |reg.devices|
    ensures forall k :: from <= k < n ==> !Breaks(reg, k)
    ensures n < |reg.devices| ==> Breaks(reg, n)
    decreases |reg.devices| - from
  {
    if from == |reg.devices| || Breaks(reg, from) then from else FirstBreak(reg, from + 1)
  }

  /** How many devices the attach job gets through. */
  function Processed(reg: Registration): (n: nat)
    ensures n <= |reg.devices|
    ensures n == |reg.devices| <==> forall k :: 0 <= k < |reg.devices| ==> !Breaks(reg, k)
  {
    FirstBreak(reg, 0)
  }

  function FirstIncomplete(incidents: seq<Context>): (n: nat)
    ensures n <= |incidents|
    ensures forall i :: 0 <= i < n ==> incidents[i].complete
    ensures n < |incidents| ==> !incidents[n].complete
  {
    if incidents == [] || !incidents[0].complete then 0 else 1 + FirstIncomplete(incidents[1..])
  }

  /** How many contexts a deny loop gets through. */
  function Deniable(reg: Registration): (n: nat)
    ensures n <= |reg.incidents|
    ensures n == |reg.incidents| <==> forall i :: 0 <= i < |reg.incidents| ==> reg.incidents[i].complete
  {
    FirstIncomplete(reg.incidents)
  }

  function ImsiValue(d: Device, idx: nat): int {
    match d.imsi
    case Number(n) => n
    case _ => 99999991000 + idx
  }

  function RecordOf(reg: Registration, k: nat, attached: bool): Record
    requires k < |reg.devices|
  {
    Record(reg.devices[k].phone, ImsiValue(reg.devices[k], k), attached)
  }

  /** What the device that ends the job still records: an attached one is recorded again as failed. */
  function BrokenRecords(reg: Registration, k: nat, attached: bool): seq<Record>
    requires k < |reg.devices|
  {
    if reg.devices[k].imsi.Malformed? then []
    else if attached then [RecordOf(reg, k, true), RecordOf(reg, k, false)] else [RecordOf(reg, k, false)]
  }

  /** A device that ends the job leaves a failed record last, after an attached one if it attached; none if its IMSI is unreadable. */
  lemma BrokenRecordsAre(reg: Registration, k: nat, attached: bool)
    requires k < |reg.devices|
    ensures var rs, d := BrokenRecords(reg, k, attached), reg.devices[k];
            && (rs == [] <==> d.imsi == Malformed)
            && (d.imsi != Malformed ==> |rs| == (if attached then 2 else 1))
            && forall i :: 0 <= i < |rs| ==> rs[i].phone == d.phone && rs[i].attached == (i < |rs| - 1)
  {
  }

  /** The records of the first `|results|` devices. */
  function Records(reg: Registration, results: seq<bool>): seq<Record>
    requires |results| <= |reg.devices|
  {
    if results == [] then []
    else
      var k := |results| - 1;
      Records(reg, results[..k]) + [RecordOf(reg, k, results[k])]
  }

  /** One record a device, in order: its phone number, its IMSI or a number made from its place, and whether it attached. */
  lemma {:induction false} RecordAt(reg: Registration, results: seq<bool>, k: nat)
    requires k < |results| <= |reg.devices|
    ensures |Records(reg, results)| == |results|
    ensures var r, d := Records(reg, results)[k], reg.devices[k];
            && r.phone == d.phone && r.attached == results[k]
            && (d.imsi.Number? ==> r.imsi == d.imsi.n) && (d.imsi.Missing? ==> r.imsi == 99999991000 + k)
  {
    var n := |results| - 1;
    RecordsCounted(reg, results);
    RecordsCounted(reg, results[..n]);
    if k < n {
      RecordAt(reg, results[..n], k);
    }
  }

  lemma {:induction false} RecordsCounted(reg: Registration, results: seq<bool>)
    requires |results| <= |reg.devices|
    ensures |Records(reg, results)| == |results|
  {
    if results != [] {
      RecordsCounted(reg, results[..|results| - 1]);
    }
  }

  lemma NextDevice(reg: Registration, answers: seq<bool>, idx: nat)
    requires idx < |answers| <= |reg.devices|
    ensures Records(reg, answers[..idx + 1]) == Records(reg, answers[..idx]) + [RecordOf(reg, idx, answers[idx])]
    ensures AttachOutcomes(reg, answers[..idx + 1])
         == AttachOutcomes(reg, answers[..idx]) + DeviceOutcome(reg, idx, answers[idx])
  {
    assert answers[..idx + 1][..idx] == answers[..idx];
  }

  /** The decision sent for one device, if an incident context has its phone number; `raised` when it has no keys. */
  method AnswerFor(reg: Registration, idx: nat, attached: bool) returns (os: seq<Outcome>, raised: bool)
    requires idx < |reg.devices|
    ensures raised == Incomplete(reg, idx)
    ensures os == if raised then [] else DeviceOutcome(reg, idx, attached)
  {
    var incident := Lookup(reg.incidents, reg.devices[idx].phone);
    if incident.None? {
      return [], false;
    }
    if !reg.incidents[incident.value].complete {
      return [], true;
    }
    return [Outcome(incident.value, attached)], false;
  }

  /** The `try` block and its handler when building the grant raises: the second append is the handler's. */
  method RecordBroken(reg: Registration, idx: nat, attached: bool) returns (records: seq<Record>)
    requires idx < |reg.devices| && !reg.devices[idx].imsi.Malformed?
    ensures records == BrokenRecords(reg, idx, attached)
  {
    records := [];
    if attached {
      records := records + [RecordOf(reg, idx, true)];
    }
    records := records + [RecordOf(reg, idx, false)];
  }

  /** The device loop; `answers[k]` says whether the network accepts device `k`. */
  method AttachAllDevices(reg: Registration, answers: seq<bool>)
    returns (records: seq<Record>, outcomes: seq<Outcome>, crashed: bool)
    requires |answers| == |reg.devices|
    ensures var n := Processed(reg);
            && (crashed <==> n < |reg.devices|)
            && outcomes == AttachOutcomes(reg, answers[..n])
            && records == Records(reg, answers[..n]) + if crashed then BrokenRecords(reg, n, answers[n]) else []
  {
    assert AttachOutcomes(reg, answers[..0]) == [] && Records(reg, answers[..0]) == [];
    assert Processed(reg) == FirstBreak(reg, 0);
    hide Processed, Records, AttachOutcomes, RecordOf, DeviceOutcome, Lookup, Incomplete;
    records, outcomes, crashed := [], [], false;
    var idx := 0;
    while idx < |reg.devices|
      invariant 0 <= idx <= |reg.devices|
      invariant Processed(reg) == FirstBreak(reg, idx)
      invariant records == Records(reg, answers[..idx])
      invariant outcomes == AttachOutcomes(reg, answers[..idx])
    {
      if reg.devices[idx].imsi.Malformed? {
        crashed := true;
        assert BrokenRecords(reg, idx, answers[idx]) == [];
        return;
      }
      NextDevice(reg, answers, idx);
      var answer, raised := AnswerFor(reg, idx, answers[idx]);
      if raised {
        var broken := RecordBroken(reg, idx, answers[idx]);
        records := records + broken;
        crashed := true;
        return;
      }
      records := records + [RecordOf(reg, idx, answers[idx])];
      outcomes := outcomes + answer;
      idx := idx + 1;
    }
  }

  // ---------------------------------------------------------------- counting outcomes per incident

  function CountFor(os: seq<Outcome>, i: nat): nat {
    if os == [] then 0 else CountFor(os[..|os| - 1], i) + (if os[|os| - 1].incident == i then 1 else 0)
  }

  function GrantsFor(os: seq<Outcome>, i: nat): nat {
    if os == [] then 0 else GrantsFor(os[..|os| - 1], i) + (if os[|os| - 1] == Outcome(i, true) then 1 else 0)
  }

  lemma CountStep(os: seq<Outcome>, more: seq<Outcome>, i: nat)
    requires |more| <= 1
    ensures CountFor(os + more, i) == CountFor(os, i) + (if more != [] && more[0].incident == i then 1 else 0)
    ensures GrantsFor(os + more, i) == GrantsFor(os, i) + (if more == [Outcome(i, true)] then 1 else 0)
  {
    if more == [] {
      assert os + more == os;
    } else {
      assert (os + more)[..|os|] == os;
    }
  }

  /** Device `k` and context `i` share a phone number. */
  predicate DeviceOf(reg: Registration, i: nat, k: nat) {
    i < |reg.incidents| && k < |reg.devices| && reg.devices[k].phone == reg.incidents[i].phone
  }

  ghost predicate HasDevice(reg: Registration, i: nat) {
    exists k: nat :: DeviceOf(reg, i, k)
  }

  /** Devices and incident contexts pair off by phone number. */
  ghost predicate OneToOne(reg: Registration) {
    && (forall k, l :: 0 <= k < l < |reg.devices| ==> reg.devices[k].phone != reg.devices[l].phone)
    && (forall i, j :: 0 <= i < j < |reg.incidents| ==> reg.incidents[i].phone != reg.incidents[j].phone)
    && (forall k :: 0 <= k < |reg.devices| ==> Lookup(reg.incidents, reg.devices[k].phone).Some?)
    && (forall i :: 0 <= i < |reg.incidents| ==> HasDevice(reg, i))
  }

  /** Incident `i` hears from its own device and from no other: a grant exactly when that device attached. */
  lemma {:induction false} DeviceDecides(reg: Registration, results: seq<bool>, i: nat, k: nat)
    requires OneToOne(reg) && DeviceOf(reg, i, k) && |results| <= |reg.devices|
    ensures CountFor(AttachOutcomes(reg, results), i) == if k < |results| then 1 else 0
    ensures GrantsFor(AttachOutcomes(reg, results), i) == if k < |results| && results[k] then 1 else 0
  {
    if results != [] {
      var n := |results| - 1;
      DeviceDecides(reg, results[..n], i, k);
      var more := DeviceOutcome(reg, n, results[n]);
      CountStep(AttachOutcomes(reg, results[..n]), more, i);
      var found := Lookup(reg.incidents, reg.devices[n].phone);
      assert reg.incidents[found.value].phone == reg.devices[n].phone;
      assert n == k <==> found.value == i;
    }
  }

  function DenyOutcomes(sent: nat): (os: seq<Outcome>)
  {
    if sent == 0 then [] else DenyOutcomes(sent - 1) + [Outcome(sent - 1, false)]
  }

  lemma {:induction false} DenyDecides(sent: nat, i: nat)
    ensures CountFor(DenyOutcomes(sent), i) == if i < sent then 1 else 0
    ensures GrantsFor(DenyOutcomes(sent), i) == 0
  {
    if sent > 0 {
      DenyDecides(sent - 1, i);
      CountStep(DenyOutcomes(sent - 1), [Outcome(sent - 1, false)], i);
    }
  }
}
