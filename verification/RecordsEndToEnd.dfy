/**
Records from the kernel's tables to the client's list: the snapshot of the sensor, the wire and the
client loop together.
*/
module RecordsEndToEnd {
  import opened Wrappers
  import opened RecordSlots
  import opened RecordsWire
  import PsSensor
  import PsMachine
  import LsofSensor

  /** Whatever the worker and other requests do in between, the client of a request with a new
      non-zero nonce receives exactly the processes that were running at its refresh, in order, or, if
      its timeout fires, the first of them. */
  lemma ClientSeesRunningProcesses(size: nat, steps: seq<PsMachine.Step>, j: nat,
                                   c: Codec<PsSensor.Process>, h: Header, z: nat, later: seq<Byte>, patience: nat,
                                   closed: bool)
    requires j < |PsMachine.Run(PsMachine.Init(size), steps).done|
    requires var q := PsMachine.Run(PsMachine.Init(size), steps).done[j].request;
      q.isNew && |q.running| <= size && Carries(c, h, q.running)
    requires h.tag == "kernel-ps"
    ensures var d := PsMachine.Run(PsMachine.Init(size), steps).done[j];
      var f := Fetch(c, Zeros(z) + Wire(Rendered(c, h, d.replies)) + later, patience, closed);
      && f.0 == Payloads(Soon(d.request.running, patience)) && !f.2
      && (patience > |d.request.running| ==> f == (Payloads(d.request.running), Zeros(1) + later, false))
  {
    PsMachine.RecordsAreOneSnapshot(size, steps, j);
    var running := PsMachine.Run(PsMachine.Init(size), steps).done[j].request.running;
    FetchFrom(c, h, running, 0, z, later, patience, closed);
    assert running[0..] == running;
  }

  /** The client of the open-files sensor receives the files of the first live processes, cut off at
      the size of the array. */
  lemma ClientSeesOpenFiles(els: seq<LsofSensor.PidEl>, slots: seq<Slot<LsofSensor.OpenFile>>, running: seq<int>,
                            tasks: map<int, LsofSensor.Task>, nonce: Nonce,
                            c: Codec<LsofSensor.OpenFile>, h: Header, z: nat, later: seq<Byte>, patience: nat,
                                   closed: bool)
    requires (forall i :: 0 <= i < |els| ==> els[i].nonce != nonce) && Fresh(slots, nonce)
    requires h.tag == "kernel-lsof"
    requires Carries(c, h, LsofSensor.First(LsofSensor.Flatten(LsofSensor.First(running, |els|), tasks), |slots|))
    ensures var files := LsofSensor.First(LsofSensor.Flatten(LsofSensor.First(running, |els|), tasks), |slots|);
      var replies := LsofSensor.RequestSpec(els, slots, running, tasks, nonce).replies;
      var f := Fetch(c, Zeros(z) + Wire(Rendered(c, h, replies)) + later, patience, closed);
      && f.0 == Payloads(Soon(files, patience)) && !f.2
      && (patience > |files| ==> f == (Payloads(files), Zeros(1) + later, false))
  {
    LsofSensor.LsofIsFlattening(els, slots, running, tasks, nonce);
    var files := LsofSensor.First(LsofSensor.Flatten(LsofSensor.First(running, |els|), tasks), |slots|);
    FetchFrom(c, h, files, 0, z, later, patience, closed);
    assert files[0..] == files;
  }
}
