/**
 The thread of the channel: it applies activations, sizes its transfers for the
 devices that are not inactive, and writes and reads.
 */
module FtScheduler {
  import opened FtSizing
  import opened FtState
  import opened Options
  import opened Products

  datatype Device = Device(adc: bool, minSize: nat, phase: State)

  // A client's request to activate or inactivate a device.
  datatype Change = Change(device: nat, activate: bool)

  // Where the thread is: at its wait, between draining the updates and resetting
  // their event, or about to write.
  datatype Pc = Waiting | Draining | Io

  /** The channel; `update` is the event of the updates, `write` the size of a
      transfer, `alloc` that of the transmit buffer. */
  datatype Channel = Channel(devices: seq<Device>, packet: nat, alloc: nat, write: nat, error: bool,
                             updating: bool, update: bool, queue: seq<Change>, pc: Pc)

  datatype Step =
    | Ask(change: Change)
    | Drain(reopened: bool)
    | Settle
    | Go
    | Cycle(writeOk: bool, readOk: bool, started: set<nat>)

  function SetPhases(devices: seq<Device>, f: Device -> State): (r: seq<Device>)
    ensures |r| == |devices|
  {
    seq(|devices|, i requires 0 <= i < |devices| => devices[i].(phase := f(devices[i])))
  }

  // The device was lost and opened again: an ADC starts over.
  function Recover(devices: seq<Device>): seq<Device> {
    SetPhases(devices, (d: Device) => if d.adc && d.phase == Active then Activating else d.phase)
  }

  function ApplyChange(devices: seq<Device>, c: Change): (r: seq<Device>)
    ensures |r| == |devices|
  {
    if c.device >= |devices| then devices
    else
      var d := devices[c.device];
      devices[c.device := d.(phase := if !c.activate then Inactivating else if d.adc then Activating else Active)]
  }

  function ApplyChanges(devices: seq<Device>, queue: seq<Change>): (r: seq<Device>)
    ensures |r| == |devices|
    decreases |queue|
  {
    if queue == [] then devices else ApplyChanges(ApplyChange(devices, queue[0]), queue[1..])
  }

  // The largest size that a device in use needs.
  function LargestUse(devices: seq<Device>): nat {
    if devices == [] then 0
    else
      var d, rest := devices[|devices| - 1], LargestUse(devices[..|devices| - 1]);
      if d.phase == Inactive then rest else Max(d.minSize, rest)
  }

  predicate Changing(d: Device) { d.phase == Activating || d.phase == Inactivating }

  predicate AnyChanging(devices: seq<Device>) {
    exists i :: 0 <= i < |devices| && Changing(devices[i])
  }

  // Before a write, devices that are to be inactive become so.
  function BeforeWrite(devices: seq<Device>): seq<Device> {
    SetPhases(devices, (d: Device) => if d.phase == Inactivating then Inactive else d.phase)
  }

  // After a read, some ADCs are through with starting.
  function AfterRead(devices: seq<Device>, started: set<nat>): (r: seq<Device>)
    ensures |r| == |devices|
  {
    seq(|devices|, i requires 0 <= i < |devices| =>
      if devices[i].phase == Activating && i in started then devices[i].(phase := Active) else devices[i])
  }

  predicate Enabled(c: Channel, s: Step) {
    match s
    case Ask(change) => change.device < |c.devices|
    case Drain(_) => c.pc == Waiting && c.update
    case Settle => c.pc == Draining
    case Go => c.pc == Waiting && !c.update
    case Cycle(_, _, _) => c.pc == Io
  }

  // One write and one read.
  function RunCycle(c: Channel, writeOk: bool, readOk: bool, started: set<nat>): Channel {
    var devices1 := if c.write > 0 then BeforeWrite(c.devices) else c.devices;
    var ok := c.write > 0 ==> writeOk && readOk;
    var devices2 := if ok && c.write > 0 then AfterRead(devices1, started) else devices1;
    if !ok then c.(devices := devices2, error := true, update := true, pc := Waiting)
    else if c.updating then
      c.(devices := devices2, updating := AnyChanging(devices2),
          update := c.update || !AnyChanging(devices2), pc := Waiting)
    else c.(devices := devices2, pc := Waiting)
  }

  function Apply(c: Channel, s: Step): Channel
    requires c.packet > 0
  {
    match s
    case Ask(change) => c.(queue := c.queue + [change], update := c.update || c.queue == [])
    case Drain(reopened) =>
      if c.error && !reopened then c
      else c.(devices := ApplyChanges(if c.error then Recover(c.devices) else c.devices, c.queue),
              error := false, queue := [], pc := Draining)
    case Settle =>
      var updating := AnyChanging(c.devices);
      c.(update := false, write := Round(LargestUse(c.devices), c.packet), updating := updating,
         pc := if updating then Io else Waiting)
    case Go => c.(pc := Io)
    case Cycle(writeOk, readOk, started) => RunCycle(c, writeOk, readOk, started)
  }

  predicate Run(c: Channel, steps: seq<Step>, c': Channel)
    requires c.packet > 0
    decreases |steps|
  {
    if steps == [] then c == c' else Enabled(c, steps[0]) && Run(Apply(c, steps[0]), steps[1..], c')
  }

  // As the constructor leaves it: sizes are whole packets and fit, nothing has
  // been computed, and the event of the updates is set.
  ghost predicate Initial(c: Channel) {
    && c.packet > 0 && c.alloc % c.packet == 0
    && (forall i :: 0 <= i < |c.devices| ==> 0 < c.devices[i].minSize <= c.alloc)
    && c.update && !c.error && c.pc == Waiting
  }

  // ------------------------------------------------------------------- sizes

  // Every device in use fits in a transfer, and a transfer in the buffer.
  ghost predicate Covers(c: Channel) {
    && c.write <= c.alloc
    && forall i :: 0 <= i < |c.devices| && c.devices[i].phase != Inactive ==> c.devices[i].minSize <= c.write
  }

  ghost predicate Ok(c: Channel) {
    && c.packet > 0 && c.alloc % c.packet == 0
    && (forall i :: 0 <= i < |c.devices| ==> 0 < c.devices[i].minSize <= c.alloc)
    && (c.pc == Io || (c.pc == Waiting && !c.update) ==> Covers(c) && !c.error)
  }

  lemma {:induction false} UseCovers(devices: seq<Device>, i: nat)
    requires i < |devices| && devices[i].phase != Inactive
    ensures devices[i].minSize <= LargestUse(devices)
    decreases |devices|
  {
    if i == |devices| - 1 {
    } else {
      UseCovers(devices[..|devices| - 1], i);
    }
  }

  lemma {:induction false} UseFits(devices: seq<Device>, alloc: nat)
    requires forall i :: 0 <= i < |devices| ==> devices[i].minSize <= alloc
    ensures LargestUse(devices) <= alloc
    decreases |devices|
  {
    if devices == [] {
    } else {
      UseFits(devices[..|devices| - 1], alloc);
    }
  }

  lemma {:induction false} ChangesKeepSizes(devices: seq<Device>, queue: seq<Change>)
    ensures forall i :: 0 <= i < |devices| ==> ApplyChanges(devices, queue)[i].minSize == devices[i].minSize
    decreases |queue|
  {
    if queue == [] {
    } else {
      ChangesKeepSizes(ApplyChange(devices, queue[0]), queue[1..]);
    }
  }

  lemma {:induction false} UseIsLeast(devices: seq<Device>, m: nat)
    requires forall i :: 0 <= i < |devices| && devices[i].phase != Inactive ==> devices[i].minSize <= m
    ensures LargestUse(devices) <= m
    decreases |devices|
  {
    if devices == [] {
    } else {
      UseIsLeast(devices[..|devices| - 1], m);
    }
  }

  /** What is set up is no more than needed: any whole number of packets that is
      enough for every device in use is at least as much. */
  lemma SettlesOnLeast(c: Channel, m: nat)
    requires c.packet > 0 && m % c.packet == 0
    requires forall i :: 0 <= i < |c.devices| && c.devices[i].phase != Inactive ==> c.devices[i].minSize <= m
    ensures Apply(c, Settle).write <= m
  {
    UseIsLeast(c.devices, m);
    RoundIsLeast(LargestUse(c.devices), c.packet);
  }

  lemma SettleOk(c: Channel)
    requires Ok(c) && c.pc == Draining && !c.error
    ensures Ok(Apply(c, Settle))
  {
    var n := LargestUse(c.devices);
    UseFits(c.devices, c.alloc);
    RoundIsLeast(n, c.packet);
    forall i | 0 <= i < |c.devices| && c.devices[i].phase != Inactive
      ensures c.devices[i].minSize <= Round(n, c.packet)
    {
      UseCovers(c.devices, i);
    }
  }

  lemma CycleOk(c: Channel, writeOk: bool, readOk: bool, started: set<nat>)
    requires Ok(c) && c.pc == Io
    ensures Ok(RunCycle(c, writeOk, readOk, started))
  {}

  ghost predicate Sound(c: Channel) {
    Ok(c) && (c.pc == Draining ==> !c.error)
  }

  lemma StepSound(c: Channel, s: Step)
    requires Sound(c) && Enabled(c, s)
    ensures Sound(Apply(c, s))
  {
    match s
    case Drain(reopened) =>
      ChangesKeepSizes(c.devices, c.queue);
      ChangesKeepSizes(Recover(c.devices), c.queue);
    case Settle => SettleOk(c);
    case Cycle(writeOk, readOk, started) => CycleOk(c, writeOk, readOk, started);
    case _ =>
  }

  lemma {:induction false} RunSound(c: Channel, steps: seq<Step>, c': Channel)
    requires Sound(c) && Run(c, steps, c')
    ensures Sound(c')
    decreases |steps|
  {
    if steps == [] {
    } else {
      StepSound(c, steps[0]);
      RunSound(Apply(c, steps[0]), steps[1..], c');
    }
  }

  /** Whenever the thread writes, whatever activations, errors and recoveries came
      before: a device that is not inactive has at least the bytes it needs, they
      fit in the buffer, and no error is pending. */
  lemma TransfersFit(c: Channel, steps: seq<Step>, c': Channel)
    requires Initial(c) && Run(c, steps, c') && c'.pc == Io
    ensures c'.write <= c'.alloc && !c'.error
    ensures forall i :: 0 <= i < |c'.devices| && c'.devices[i].phase != Inactive ==>
      0 < c'.devices[i].minSize <= c'.write
  {
    RunSound(c, steps, c');
  }

  /** So after the next transfer a device that was told to become inactive is, an
      ADC may be through with starting, and no other device has changed. */
  lemma ShutdownHappens(c: Channel, steps: seq<Step>, c': Channel, writeOk: bool, readOk: bool, started: set<nat>)
    requires Initial(c) && Run(c, steps, c') && c'.pc == Io
    ensures var after := RunCycle(c', writeOk, readOk, started).devices;
      && |after| == |c'.devices|
      && forall i :: 0 <= i < |after| ==>
           after[i].phase == (match c'.devices[i].phase
                              case Inactivating => Inactive
                              case Activating => if writeOk && readOk && i in started then Active else Activating
                              case phase => phase)
  {
    RunSound(c, steps, c');
    assert Covers(c');
    if c'.write == 0 {
      assert forall i :: 0 <= i < |c'.devices| ==> c'.devices[i].phase == Inactive;
    }
  }

  // Nothing is changing, and the transfers are set up for just the devices in use.
  ghost predicate AtRest(c: Channel)
    requires c.packet > 0
  {
    !AnyChanging(c.devices) && c.write == Round(LargestUse(c.devices), c.packet)
  }

  ghost predicate RestsOk(c: Channel) {
    c.packet > 0 && ((c.pc == Io || (c.pc == Waiting && !c.update)) && !c.updating ==> AtRest(c))
  }

  lemma StaysAtRest(c: Channel, writeOk: bool, readOk: bool, started: set<nat>)
    requires c.packet > 0 && AtRest(c)
    ensures RunCycle(c, writeOk, readOk, started).devices == c.devices
  {
    var ds := c.devices;
    forall i | 0 <= i < |ds| ensures ds[i].phase != Inactivating && ds[i].phase != Activating {
      assert !Changing(ds[i]);
    }
    assert BeforeWrite(ds) == ds && AfterRead(ds, started) == ds;
  }

  lemma StepRests(c: Channel, s: Step)
    requires RestsOk(c) && Enabled(c, s)
    ensures RestsOk(Apply(c, s))
  {
    match s
    case Cycle(writeOk, readOk, started) =>
      if !c.updating { StaysAtRest(c, writeOk, readOk, started); }
    case _ =>
  }

  lemma {:induction false} RunRests(c: Channel, steps: seq<Step>, c': Channel)
    requires RestsOk(c) && Run(c, steps, c')
    ensures RestsOk(c')
    decreases |steps|
  {
    if steps == [] {
    } else {
      StepRests(c, steps[0]);
      RunRests(Apply(c, steps[0]), steps[1..], c');
    }
  }

  /** Transfers follow the devices: whenever the channel transfers or waits, with no
      update to look at and no device seen changing, none is changing and the size of
      the transfers is that of the devices now in use. */
  lemma TransfersFollow(c: Channel, steps: seq<Step>, c': Channel)
    requires Initial(c) && Run(c, steps, c') && !c'.updating && (c'.pc == Io || (c'.pc == Waiting && !c'.update))
    ensures c'.packet > 0 && AtRest(c')
  {
    RunRests(c, steps, c');
  }

  /** The sizes of the constructor are such a start, if every device needs
      something. */
  lemma SizesStart(devs: seq<DeviceInit>, usb: Usb, phases: seq<State>)
    requires forall k :: 0 <= k < |devs| ==> !TooLarge(devs[k], usb) && Need(devs[k], usb) > 0
    requires |phases| == |devs|
    ensures var alloc := Buffer(devs, usb);
      var devices := seq(|devs|, i requires 0 <= i < |devs| =>
        Device(devs[i].Adc?, MinSize(devs[i], usb, alloc), phases[i]));
      Initial(Channel(devices, Packet(usb), alloc, 0, false, false, true, [], Waiting))
  {
    PassesAgree(devs, usb);
  }

  /** What becomes of the channel in a transfer: if there is one and it fails there is an
      error to recover from; the updates are looked at again after an error, and as
      soon as no device is changing any more; and the thread waits. */
  lemma TransferOutcome(c: Channel, writeOk: bool, readOk: bool, started: set<nat>)
    requires c.packet > 0
    ensures var r, failed := Apply(c, Cycle(writeOk, readOk, started)), c.write > 0 && !(writeOk && readOk);
      var changing := exists i :: 0 <= i < |r.devices| && r.devices[i].phase in [Activating, Inactivating];
      && r.pc == Waiting && r.write == c.write && r.queue == c.queue && r.error == (c.error || failed)
      && r.update == (c.update || failed || (c.updating && !changing))
      && r.updating == (if failed then c.updating else c.updating && changing)
  {
    var ds := Apply(c, Cycle(writeOk, readOk, started)).devices;
    if AnyChanging(ds) {
      var i :| 0 <= i < |ds| && Changing(ds[i]);
      assert ds[i].phase in [Activating, Inactivating];
    }
    if i :| 0 <= i < |ds| && ds[i].phase in [Activating, Inactivating] { assert Changing(ds[i]); }
  }

  /** Once the updates are drained their event is reset, and the next transfer is made at
      once if a device is changing; else it waits for a device that wants one. */
  lemma SettleOutcome(c: Channel)
    requires c.packet > 0
    ensures var r := Apply(c, Settle);
      var changing := exists i :: 0 <= i < |c.devices| && c.devices[i].phase in [Activating, Inactivating];
      && !r.update && r.updating == changing && r.pc == (if changing then Io else Waiting)
      && r.devices == c.devices && r.queue == c.queue && r.error == c.error
    ensures Apply(c, Go) == c.(pc := Io)
  {
    var ds := c.devices;
    if AnyChanging(ds) {
      var i :| 0 <= i < |ds| && Changing(ds[i]);
      assert ds[i].phase in [Activating, Inactivating];
    }
    if i :| 0 <= i < |ds| && ds[i].phase in [Activating, Inactivating] { assert Changing(ds[i]); }
  }

  // ------------------------------------------------------------- activations

  // The last of these changes that names device i, if any does.
  function LastChange(queue: seq<Change>, i: nat): Option<bool> {
    if queue == [] then None
    else if queue[|queue| - 1].device == i then Some(queue[|queue| - 1].activate)
    else LastChange(queue[..|queue| - 1], i)
  }

  lemma {:induction false} LastChangeAppend(a: seq<Change>, b: seq<Change>, i: nat)
    ensures LastChange(a + b, i) == if LastChange(b, i) != None then LastChange(b, i) else LastChange(a, i)
    decreases |b|
  {
    if b == [] {
      assert a + b == a;
    } else {
      assert (a + b)[..|a + b| - 1] == a + b[..|b| - 1];
      LastChangeAppend(a, b[..|b| - 1], i);
    }
  }

  lemma {:induction false} ChangesTell(devices: seq<Device>, queue: seq<Change>, i: nat)
    requires i < |devices|
    ensures var d, r := devices[i], ApplyChanges(devices, queue)[i];
      && r.adc == d.adc && r.minSize == d.minSize
      && r.phase == match LastChange(queue, i)
                    case None => d.phase
                    case Some(activate) => if !activate then Inactivating else if d.adc then Activating else Active
    decreases |queue|
  {
    if queue == [] {
    } else {
      ChangesTell(ApplyChange(devices, queue[0]), queue[1..], i);
      LastChangeAppend([queue[0]], queue[1..], i);
      assert [queue[0]] + queue[1..] == queue && [queue[0]][..0] == [];
    }
  }

  /** Once the updates are drained each device is what the last of them that names it
      asked for: inactivating, active, or if it is an ADC activating. A device that
      none of them names stays as it was, but an ADC that was active starts over
      after an error. */
  lemma DrainTells(c: Channel, reopened: bool, i: nat)
    requires c.packet > 0 && Enabled(c, Drain(reopened)) && i < |c.devices| && (c.error ==> reopened)
    ensures var d, r := c.devices[i], Apply(c, Drain(reopened));
      && r.queue == [] && !r.error && |r.devices| == |c.devices|
      && r.devices[i].phase == match LastChange(c.queue, i)
         case None => if c.error && d.adc && d.phase == Active then Activating else d.phase
         case Some(activate) => if !activate then Inactivating else if d.adc then Activating else Active
  {
    ChangesTell(if c.error then Recover(c.devices) else c.devices, c.queue, i);
  }

  // Is the device told to be active, once the updates that wait are drained?
  function Wanted(c: Channel, i: nat): bool
    requires i < |c.devices|
  {
    match LastChange(c.queue, i)
    case None => c.devices[i].phase == Active || c.devices[i].phase == Activating
    case Some(activate) => activate
  }

  // What was asked for last in a run, or else before it.
  function LastAsked(steps: seq<Step>, i: nat, before: bool): bool
    decreases |steps|
  {
    if steps == [] then before
    else LastAsked(steps[1..], i,
                   if steps[0].Ask? && steps[0].change.device == i then steps[0].change.activate else before)
  }

  lemma StepWants(c: Channel, s: Step, i: nat)
    requires c.packet > 0 && Enabled(c, s) && i < |c.devices|
    ensures |Apply(c, s).devices| == |c.devices| && Apply(c, s).devices[i].adc == c.devices[i].adc
    ensures Wanted(Apply(c, s), i) == LastAsked([s], i, Wanted(c, i))
  {
    assert [s][1..] == [];
    match s
    case Ask(change) =>
      LastChangeAppend(c.queue, [change], i);
      assert [change][..0] == [];
    case Drain(reopened) => if c.error ==> reopened { DrainWants(c, reopened, i); }
    case _ =>
  }

  lemma DrainWants(c: Channel, reopened: bool, i: nat)
    requires c.packet > 0 && Enabled(c, Drain(reopened)) && i < |c.devices| && (c.error ==> reopened)
    ensures var r := Apply(c, Drain(reopened));
      |r.devices| == |c.devices| && r.devices[i].adc == c.devices[i].adc && Wanted(r, i) == Wanted(c, i)
  {
    ChangesTell(if c.error then Recover(c.devices) else c.devices, c.queue, i);
  }

  lemma {:induction false} RunWants(c: Channel, steps: seq<Step>, c': Channel, i: nat)
    requires c.packet > 0 && Run(c, steps, c') && i < |c.devices|
    ensures |c'.devices| == |c.devices| && c'.devices[i].adc == c.devices[i].adc
    ensures Wanted(c', i) == LastAsked(steps, i, Wanted(c, i))
    decreases |steps|
  {
    if steps == [] {
    } else {
      var s := steps[0];
      StepWants(c, s, i);
      assert [s][1..] == [];
      RunWants(Apply(c, s), steps[1..], c', i);
    }
  }

  // Only an ADC takes its time to become active.
  lemma {:induction false} RunStarts(c: Channel, steps: seq<Step>, c': Channel, i: nat)
    requires c.packet > 0 && Run(c, steps, c') && i < |c.devices| && c.devices[i].phase != Activating
    requires !c.devices[i].adc
    ensures i < |c'.devices| && c'.devices[i].phase != Activating
    decreases |steps|
  {
    if steps == [] {
    } else {
      var s := steps[0];
      StepWants(c, s, i);
      if s.Drain? && (c.error ==> s.reopened) { DrainTells(c, s.reopened, i); }
      RunStarts(Apply(c, s), steps[1..], c', i);
    }
  }

  /** Over any run, whatever transfers, errors and recoveries it has: once no update is
      waiting, a device is active, or an ADC at least starting, if and only if that is
      what was asked for last. */
  lemma AsksAreKept(c: Channel, steps: seq<Step>, c': Channel, i: nat)
    requires c.packet > 0 && Run(c, steps, c') && i < |c.devices| && c'.queue == []
    ensures i < |c'.devices|
    ensures LastAsked(steps, i, Wanted(c, i)) <==> c'.devices[i].phase == Active || c'.devices[i].phase == Activating
    ensures !c.devices[i].adc && c.devices[i].phase != Activating ==>
      (LastAsked(steps, i, Wanted(c, i)) <==> c'.devices[i].phase == Active)
  {
    RunWants(c, steps, c', i);
    if !c.devices[i].adc && c.devices[i].phase != Activating { RunStarts(c, steps, c', i); }
  }

  // ----------------------------------------------------------- lost updates

  // Somebody's update is waiting, and so the event is set.
  predicate Heard(c: Channel) {
    c.queue != [] ==> c.update
  }

  // So it is in every state of a run.
  predicate HeardAlong(c: Channel, steps: seq<Step>)
    requires c.packet > 0
    decreases |steps|
  {
    Heard(c) && (steps == [] || HeardAlong(Apply(c, steps[0]), steps[1..]))
  }

  // No client asks between the draining of the updates and the reset of their event.
  predicate Unhurried(c: Channel, steps: seq<Step>)
    requires c.packet > 0
    decreases |steps|
  {
    steps == [] || (!(steps[0].Ask? && c.pc == Draining) && Unhurried(Apply(c, steps[0]), steps[1..]))
  }

  // Who asked there is not heard any more once the event is reset.
  lemma {:induction false} AskedTooLate(c: Channel, steps: seq<Step>, c': Channel)
    requires c.packet > 0 && Run(c, steps, c') && c.pc == Draining && c.queue != [] && c'.pc != Draining
    ensures !HeardAlong(c, steps)
    decreases |steps|
  {
    if steps[0].Ask? {
      AskedTooLate(Apply(c, steps[0]), steps[1..], c');
    } else {
      assert steps[0] == Settle;
      assert !Heard(Apply(c, steps[0]));
    }
  }

  lemma {:induction false} RunHears(c: Channel, steps: seq<Step>, c': Channel)
    requires c.packet > 0 && Run(c, steps, c') && Heard(c) && (c.pc == Draining ==> c.queue == [])
    ensures Unhurried(c, steps) ==> HeardAlong(c, steps)
    ensures HeardAlong(c, steps) && c'.pc != Draining ==> Unhurried(c, steps)
    decreases |steps|
  {
    if steps == [] {
    } else if steps[0].Ask? && c.pc == Draining {
      if c'.pc != Draining { AskedTooLate(Apply(c, steps[0]), steps[1..], c'); }
    } else {
      RunHears(Apply(c, steps[0]), steps[1..], c');
    }
  }

  // The update waits, the thread too, and asking again does not wake it.
  ghost predicate Forgotten(c: Channel, change: Change) {
    && c.packet > 0 && c.queue == [change] && !c.update && c.pc == Waiting
    && forall other :: !Apply(c, Ask(other)).update
  }

  /** The event of the updates is reset after they were drained, not before: an
      update that arrives in between is forgotten until something else sets the
      event, as here, */
  lemma UpdateForgotten(c: Channel, change: Change)
    requires Initial(c) && c.queue == [] && change.device < |c.devices| && !AnyChanging(c.devices)
    ensures exists c' :: Run(c, [Drain(true), Ask(change), Settle], c') && Forgotten(c', change)
  {
    var steps := [Drain(true), Ask(change), Settle];
    var c1 := Apply(c, steps[0]);
    var c2 := Apply(c1, steps[1]);
    var c3 := Apply(c2, steps[2]);
    assert c1.devices == c.devices;
    assert steps[1..] == [Ask(change), Settle] && steps[1..][1..] == [Settle] && [Settle][1..] == [];
    assert Run(c3, [], c3);
    assert Run(c2, [Settle], c3);
    assert Run(c1, steps[1..], c3);
    assert Run(c, steps, c3);
  }

  /** and this is the only way: in every state of a run those who wait are heard
      if and only if nobody ever asked in between (and, if the run stops right
      there, at least if nobody did). */
  lemma UpdatesAreHeard(c: Channel, steps: seq<Step>, c': Channel)
    requires Initial(c) && Run(c, steps, c')
    ensures Unhurried(c, steps) ==> HeardAlong(c, steps)
    ensures c'.pc != Draining ==> (HeardAlong(c, steps) <==> Unhurried(c, steps))
  {
    RunHears(c, steps, c');
  }

  // ------------------------------------------------------------------- class

  function Devices(isAdc: seq<bool>, minSizes: seq<nat>, phases: seq<State>): (r: seq<Device>)
    requires |isAdc| == |minSizes| == |phases|
    ensures |r| == |phases|
  {
    seq(|phases|, i requires 0 <= i < |phases| => Device(isAdc[i], minSizes[i], phases[i]))
  }

  // What DoWork makes of the phase of a device: on a recovery,
  function Recovered(adc: bool, phase: State): State { if adc && phase == Active then Activating else phase }

  // when told to become active or inactive,
  function Told(adc: bool, activate: bool): State {
    if !activate then Inactivating else if adc then Activating else Active
  }

  // and before a write.
  function Written(phase: State): State { if phase == Inactivating then Inactive else phase }

  /** The thread of the channel, its devices being known by their phases. */
  class CChannelFTDI {
    const packet: nat
    const alloc: nat
    const minSizes: seq<nat>
    const isAdc: seq<bool>
    var phases: seq<State>
    var dwWrite: nat
    var bError: bool
    var bUpdating: bool
    var hUpdate: bool
    var asUpdates: seq<Change>
    ghost var pc: Pc

    ghost predicate Valid()
      reads this
    {
      packet > 0 && |minSizes| == |isAdc| == |phases|
    }

    ghost function View(): Channel
      requires Valid()
      reads this
    {
      Channel(Devices(isAdc, minSizes, phases), packet, alloc, dwWrite, bError, bUpdating, hUpdate, asUpdates, pc)
    }

    constructor (packet: nat, alloc: nat, minSizes: seq<nat>, isAdc: seq<bool>, phases: seq<State>)
      requires packet > 0 && |minSizes| == |isAdc| == |phases|
      ensures Valid() && this.packet == packet && this.alloc == alloc
      ensures View() == Channel(Devices(isAdc, minSizes, phases), packet, alloc, 0, false, false, true, [], Waiting)
    {
      this.packet, this.alloc, this.minSizes, this.isAdc, this.phases := packet, alloc, minSizes, isAdc, phases;
      dwWrite, bError, bUpdating, hUpdate, asUpdates, pc := 0, false, false, true, [], Waiting;
    }

    /** A client asks: the event of the updates is set if none was waiting. */
    method PushUpdate(change: Change)
      requires Valid()
      modifies this`asUpdates, this`hUpdate
      ensures Valid() && View() == Apply(old(View()), Ask(change))
    {
      if |asUpdates| == 0 {
        hUpdate := true;
      }
      asUpdates := asUpdates + [change];
    }

    // All devices are told that the channel was lost and opened again.
    method RecoverAll()
      requires Valid()
      modifies this`phases
      ensures Valid() && Devices(isAdc, minSizes, phases) == Recover(old(View().devices))
    {
      ghost var before := phases;
      var i := 0;
      while i < |phases|
        invariant 0 <= i <= |phases| == |before|
        invariant forall k :: 0 <= k < |phases| ==>
          phases[k] == if k < i then Recovered(isAdc[k], before[k]) else before[k]
      {
        phases := phases[i := Recovered(isAdc[i], phases[i])];
        i := i + 1;
      }
    }

    /** The updates of the clients are applied, after a recovery if there was an
        error; nothing happens while the device cannot be opened again. */
    method DrainUpdates(reopened: bool)
      requires Valid() && pc == Waiting
      modifies this`phases, this`bError, this`asUpdates, this`pc
      ensures Valid() && View() == Apply(old(View()), Drain(reopened))
    {
      if bError {
        if !reopened {
          return;
        }
        bError := false;
        RecoverAll();
      }
      ghost var devices, queue := Devices(isAdc, minSizes, phases), asUpdates;
      while |asUpdates| > 0
        invariant Valid() && !bError
        invariant ApplyChanges(devices, queue) == ApplyChanges(Devices(isAdc, minSizes, phases), asUpdates)
        decreases |asUpdates|
      {
        var up := asUpdates[0];
        ghost var now := Devices(isAdc, minSizes, phases);
        asUpdates := asUpdates[1..];
        if up.device < |phases| {
          phases := phases[up.device := Told(isAdc[up.device], up.activate)];
        }
        assert Devices(isAdc, minSizes, phases) == ApplyChange(now, up);
      }
      pc := Draining;
    }

    // What the devices in use need, and whether any is changing.
    method Survey()
      requires Valid()
      modifies this`dwWrite, this`bUpdating
      ensures dwWrite == LargestUse(View().devices) && (bUpdating <==> AnyChanging(View().devices))
    {
      dwWrite := 0;
      bUpdating := false;
      var i := 0;
      ghost var devices := Devices(isAdc, minSizes, phases);
      assert devices[..0] == [];
      while i < |phases|
        invariant 0 <= i <= |phases|
        invariant dwWrite == LargestUse(devices[..i])
        invariant bUpdating <==> AnyChanging(devices[..i])
      {
        assert devices[..i + 1][..i] == devices[..i] && devices[i] == Device(isAdc[i], minSizes[i], phases[i]);
        ChangingNext(devices, i);
        if phases[i] != Inactive {
          dwWrite := Max(minSizes[i], dwWrite);
        }
        bUpdating := bUpdating || phases[i] == Activating || phases[i] == Inactivating;
        i := i + 1;
      }
      assert devices[..i] == devices;
    }

    /** Sets the transfers up for the devices that are not inactive. */
    method SetUp()
      requires Valid() && pc == Draining
      modifies this`dwWrite, this`bUpdating, this`hUpdate, this`pc
      ensures Valid() && View() == Apply(old(View()), Settle)
    {
      hUpdate := false;
      Survey();
      dwWrite := (dwWrite + packet - 1) / packet * packet;
      pc := if bUpdating then Io else Waiting;
    }

    // Every device has its turn before the write.
    method BeforeWriteAll()
      requires Valid()
      modifies this`phases
      ensures Valid() && Devices(isAdc, minSizes, phases) == BeforeWrite(old(View().devices))
    {
      ghost var before := phases;
      var i := 0;
      while i < |phases|
        invariant 0 <= i <= |phases| == |before|
        invariant forall k :: 0 <= k < |phases| ==> phases[k] == if k < i then Written(before[k]) else before[k]
      {
        phases := phases[i := Written(phases[i])];
        i := i + 1;
      }
    }

    // And after the read: some ADCs are through with starting.
    method AfterReadAll(started: set<nat>)
      requires Valid()
      modifies this`phases
      ensures Valid() && Devices(isAdc, minSizes, phases) == AfterRead(old(View().devices), started)
    {
      ghost var before := phases;
      var i := 0;
      while i < |phases|
        invariant 0 <= i <= |phases| == |before|
        invariant forall k :: 0 <= k < |phases| ==>
          phases[k] == if k < i && before[k] == Activating && k in started then Active else before[k]
      {
        if phases[i] == Activating && i in started {
          phases := phases[i := Active];
        }
        i := i + 1;
      }
    }

    // Is any device still changing?
    method StillChanging() returns (changing: bool)
      requires Valid()
      ensures changing <==> AnyChanging(Devices(isAdc, minSizes, phases))
    {
      changing := false;
      var i := 0;
      ghost var devices := Devices(isAdc, minSizes, phases);
      assert devices[..0] == [];
      while i < |phases|
        invariant 0 <= i <= |phases| && (changing <==> AnyChanging(devices[..i]))
      {
        assert devices[i] == Device(isAdc[i], minSizes[i], phases[i]);
        ChangingNext(devices, i);
        changing := changing || phases[i] == Activating || phases[i] == Inactivating;
        i := i + 1;
      }
      assert devices[..i] == devices;
    }

    /** One write and one read. */
    method Transfer(writeOk: bool, readOk: bool, started: set<nat>)
      requires Valid() && pc == Io && !bError
      modifies this`phases, this`bError, this`bUpdating, this`hUpdate, this`pc
      ensures Valid() && View() == Apply(old(View()), Cycle(writeOk, readOk, started))
    {
      pc := Waiting;
      if dwWrite > 0 {
        BeforeWriteAll();
        bError := !writeOk;
        if !bError {
          bError := !readOk;
          if !bError {
            AfterReadAll(started);
          }
        }
      }
      if bError {
        hUpdate := true;
      } else if bUpdating {
        bUpdating := StillChanging();
        if !bUpdating {
          hUpdate := true;
        }
      }
    }
  }

  lemma ChangingNext(devices: seq<Device>, i: nat)
    requires i < |devices|
    ensures AnyChanging(devices[..i + 1]) <==> AnyChanging(devices[..i]) || Changing(devices[i])
  {
    var now, before := devices[..i + 1], devices[..i];
    if AnyChanging(before) {
      var k :| 0 <= k < |before| && Changing(before[k]);
      assert Changing(now[k]);
    }
    if Changing(devices[i]) { assert Changing(now[i]); }
    if AnyChanging(now) {
      var k :| 0 <= k < |now| && Changing(now[k]);
      if k < i { assert Changing(before[k]); }
    }
  }
}
