/** The duty cycle of the USB gadget manager
    (src/airbridge/pi_usb_manager.py): lend the data partition to the host
    as a USB mass-storage gadget, wait for a quiet window, take it back,
    mount it locally, harvest it, and unmount it again.

    The exit statuses of `modprobe`, `mount` and `umount`, the clock, the
    image's modification time and the controller state are inputs; the
    manager records every command it runs together with its outcome. */
module UsbManager {
  import opened Text

  /** Seconds without a write to the image before it is taken back. */
  const QuietWindowS: int := 30

  // ---------------------------------------------------------------------
  // Commands and the exclusivity of the partition
  // ---------------------------------------------------------------------

  /** `modprobe g_mass_storage`, `modprobe -r g_mass_storage`,
      `mount -o loop` and `umount` of the partition. */
  datatype Op = LoadModule | UnloadModule | MountImage | UnmountImage

  /** A command run, with whether it exited with status 0. */
  datatype Run = Run(op: Op, ok: bool)

  /** Whether the host has the partition (gadget loaded) and whether the
      Pi has it mounted. */
  datatype Device = Device(gadget: bool, mounted: bool)

  /** A command that fails changes nothing. */
  function Apply(d: Device, r: Run): Device {
    if !r.ok then d
    else match r.op
      case LoadModule => d.(gadget := true)
      case UnloadModule => d.(gadget := false)
      case MountImage => d.(mounted := true)
      case UnmountImage => d.(mounted := false)
  }

  /** The partition is never lent to the host while it is mounted, and
      never mounted while the host has it. */
  predicate Allowed(d: Device, r: Run) {
    match r.op
    case LoadModule => !d.mounted
    case MountImage => !d.gadget
    case _ => true
  }

  predicate Exclusive(d: Device, runs: seq<Run>)
    decreases |runs|
  {
    runs == [] || (Allowed(d, runs[0]) && Exclusive(Apply(d, runs[0]), runs[1..]))
  }

  function After(d: Device, runs: seq<Run>): Device
    decreases |runs|
  {
    if runs == [] then d else After(Apply(d, runs[0]), runs[1..])
  }

  /** A run is exclusive iff its two halves are, the second from where
      the first leaves the device. */
  lemma {:induction false} ExclusiveAppend(d: Device, a: seq<Run>, b: seq<Run>)
    ensures Exclusive(d, a + b) <==> Exclusive(d, a) && Exclusive(After(d, a), b)
    ensures After(d, a + b) == After(After(d, a), b)
    decreases |a|
  {
    if a != [] {
      assert (a + b)[0] == a[0] && (a + b)[1..] == a[1..] + b;
      ExclusiveAppend(Apply(d, a[0]), a[1..], b);
    } else {
      assert a + b == b;
    }
  }

  lemma Cons(d: Device, r: Run, rest: seq<Run>)
    ensures Exclusive(d, [r] + rest) <==> Allowed(d, r) && Exclusive(Apply(d, r), rest)
    ensures After(d, [r] + rest) == After(Apply(d, r), rest)
  {
    assert ([r] + rest)[1..] == rest;
  }

  /** One more command moves the device on by that command. */
  lemma AfterSnoc(d: Device, runs: seq<Run>, r: Run)
    ensures After(d, runs + [r]) == Apply(After(d, runs), r)
  {
    ExclusiveAppend(d, runs, [r]);
    Cons(After(d, runs), r, []);
    assert [r] + [] == [r];
  }

  // ---------------------------------------------------------------------
  // The quiet window
  // ---------------------------------------------------------------------

  /** What one poll of the quiet-window loop reads: the image's
      modification time (None when it cannot be read), the clock, and the
      controller listing and files under /sys/class/udc. */
  datatype Sample = Sample(mtime: Option<int>, now: int, udcDirs: Option<seq<string>>, sysfs: map<string, string>)

  /** get_image_mtime: 0 when the image's time cannot be read. */
  function ImageMtime(s: Sample): int {
    if s.mtime.Some? then s.mtime.value else 0
  }

  /** get_udc_state: the stripped state of the first controller, None
      when there is none or its state file does not exist. */
  function GadgetUdcState(udcDirs: Option<seq<string>>, sysfs: map<string, string>): (r: Option<string>)
    ensures r.Some? <==> udcDirs.Some? && udcDirs.value != [] && "/sys/class/udc/" + udcDirs.value[0] + "/state" in sysfs
    ensures r.Some? ==> r.value == Strip(sysfs["/sys/class/udc/" + udcDirs.value[0] + "/state"])
  {
    if udcDirs.None? || udcDirs.value == [] then None
    else
      var path := "/sys/class/udc/" + udcDirs.value[0] + "/state";
      if path in sysfs then Some(Strip(sysfs[path])) else None
  }

  /** The newest modification time seen and when it was first seen. */
  datatype Watch = Watch(lastMtime: int, lastActivity: int)

  /** A newer modification time is recorded together with the time of the poll. */
  function Observe(w: Watch, s: Sample): Watch {
    if ImageMtime(s) > w.lastMtime then Watch(ImageMtime(s), s.now) else w
  }

  /** What the first n polls leave recorded. */
  function Track(w: Watch, samples: seq<Sample>, n: nat): Watch
    requires n <= |samples|
  {
    if n == 0 then w else Observe(Track(w, samples, n - 1), samples[n - 1])
  }

  /** The poll `s`, seen after `w`, ends the wait: quiet for the window,
      or the host no longer configured. */
  predicate Halts(w: Watch, s: Sample) {
    s.now - Observe(w, s).lastActivity >= QuietWindowS || GadgetUdcState(s.udcDirs, s.sysfs) != Some("configured")
  }

  /** None of the first n polls ends the wait. */
  predicate Waits(w: Watch, samples: seq<Sample>, n: nat)
    requires n <= |samples|
  {
    forall k :: 0 <= k < n ==> !Halts(Track(w, samples, k), samples[k])
  }

  /** How a wait that started at `w` over `samples` ended: after `polls`
      polls, at the first that halts it (`quiet`) or when the polls ran out,
      with `lastMtime` the newest modification time recorded up to there. */
  predicate WaitEnds(w: Watch, samples: seq<Sample>, quiet: bool, polls: nat, lastMtime: int) {
    && polls <= |samples| && (!quiet ==> polls == |samples|)
    && lastMtime == Track(w, samples, polls).lastMtime
    && (quiet ==> 0 < polls && Halts(Track(w, samples, polls - 1), samples[polls - 1]))
    && Waits(w, samples, if quiet then polls - 1 else polls)
  }

  lemma HaltEnds(w: Watch, samples: seq<Sample>, i: nat)
    requires i < |samples| && Waits(w, samples, i) && Halts(Track(w, samples, i), samples[i])
    ensures WaitEnds(w, samples, true, i + 1, Track(w, samples, i + 1).lastMtime)
  {
    assert i + 1 - 1 == i;
  }

  lemma WaitsSnoc(w: Watch, samples: seq<Sample>, i: nat)
    requires i < |samples| && Waits(w, samples, i) && !Halts(Track(w, samples, i), samples[i])
    ensures Waits(w, samples, i + 1)
  {
  }

  /** The recorded modification time is the newest of the initial one and
      every one polled: it never decreases. */
  lemma {:induction false} TrackIsNewest(w: Watch, samples: seq<Sample>, n: nat)
    requires n <= |samples|
    ensures Track(w, samples, n).lastMtime >= w.lastMtime
    ensures forall k :: 0 <= k < n ==> ImageMtime(samples[k]) <= Track(w, samples, n).lastMtime
    ensures Track(w, samples, n).lastMtime == w.lastMtime
            || exists k :: 0 <= k < n && Track(w, samples, n).lastMtime == ImageMtime(samples[k])
    decreases n
  {
    if n > 0 {
      TrackIsNewest(w, samples, n - 1);
    }
  }

  /** The polls come in clock order, none before the wait started. */
  predicate InOrder(start: int, samples: seq<Sample>) {
    (forall k :: 0 <= k < |samples| ==> start <= samples[k].now)
    && (forall i, j :: 0 <= i < j < |samples| ==> samples[i].now <= samples[j].now)
  }

  /** Poll j saw a modification time newer than any before it. */
  predicate Raised(w: Watch, samples: seq<Sample>, j: nat)
    requires j < |samples|
  {
    ImageMtime(samples[j]) > Track(w, samples, j).lastMtime
  }

  /** With polls in clock order, the recorded activity is no older than
      any poll that saw a newer modification time. */
  lemma {:induction false} ActivityIsLatest(m: int, start: int, samples: seq<Sample>, n: nat)
    requires n <= |samples| && InOrder(start, samples)
    ensures start <= Track(Watch(m, start), samples, n).lastActivity
    ensures forall j :: 0 <= j < n && Raised(Watch(m, start), samples, j) ==>
      samples[j].now <= Track(Watch(m, start), samples, n).lastActivity
    decreases n
  {
    var w0 := Watch(m, start);
    if n > 0 {
      ActivityIsLatest(m, start, samples, n - 1);
      var before := Track(w0, samples, n - 1);
      var after := Track(w0, samples, n);
      forall j | 0 <= j < n && Raised(w0, samples, j)
        ensures samples[j].now <= after.lastActivity
      {
        if j < n - 1 && after != before {
          assert after.lastActivity == samples[n - 1].now;
        }
      }
    }
  }

  /** A wait that ended on a quiet window saw no newer modification time in
      the last 30 seconds. */
  lemma QuietMeansNoRecentWrite(m: int, start: int, samples: seq<Sample>, polls: nat, j: nat)
    requires 0 < polls <= |samples| && InOrder(start, samples)
    requires samples[polls - 1].now - Track(Watch(m, start), samples, polls).lastActivity >= QuietWindowS
    requires j < polls && Raised(Watch(m, start), samples, j)
    ensures samples[polls - 1].now - samples[j].now >= QuietWindowS
  {
    ActivityIsLatest(m, start, samples, polls);
  }

  // ---------------------------------------------------------------------
  // The duty cycle
  // ---------------------------------------------------------------------

  /** What one duty cycle meets: the exit status of each command it may
      run and the polls of its quiet window, which starts at `start`.
      `clear` is the `umount` that mount_image runs first when the
      partition is still mounted. */
  datatype CycleInputs = CycleInputs(
    load: bool, start: int, samples: seq<Sample>, unload: bool, clear: bool, mount: bool, unmount: bool)

  /** The commands run_duty_cycle runs, from a partition mounted or not:
      load, then unload, then mount (unmounting first when mounted), then
      unmount, stopping after the first that fails. */
  function CycleTrace(mounted: bool, o: CycleInputs): seq<Run> {
    if !o.load then [Run(LoadModule, false)]
    else [Run(LoadModule, true)] + TakeBackTrace(mounted, o)
  }

  /** The commands of the second half of the cycle: unload, then mount
      (unmounting first when mounted), then unmount. */
  function TakeBackTrace(mounted: bool, o: CycleInputs): seq<Run> {
    if !o.unload then [Run(UnloadModule, false)]
    else
      [Run(UnloadModule, true)]
      + (if mounted then [Run(UnmountImage, o.clear)] else [])
      + [Run(MountImage, o.mount)]
      + (if o.mount then [Run(UnmountImage, o.unmount)] else [])
  }

  /** Where a cycle leaves the partition: lent out unless the unload ran
      and succeeded; mounted as the mount and the unmounts left it. */
  function CycleEnd(d: Device, o: CycleInputs): Device {
    if !o.load then d else TakeBackEnd(d.(gadget := true), o)
  }

  function TakeBackEnd(d: Device, o: CycleInputs): Device {
    if !o.unload then d
    else if o.mount then Device(false, !o.unmount)
    else Device(false, d.mounted && !o.clear)
  }

  /** CycleEnd is where the commands of the cycle leave the device. */
  lemma CycleEndIsAfter(d: Device, o: CycleInputs)
    ensures After(d, CycleTrace(d.mounted, o)) == CycleEnd(d, o)
  {
    var l, u := Run(LoadModule, o.load), Run(UnloadModule, o.unload);
    var m, x := Run(MountImage, o.mount), Run(UnmountImage, o.unmount);
    var d1 := Apply(d, l);
    if !o.load {
      Cons(d, l, []);
    } else if !o.unload {
      Cons(d, l, [u]);
      Cons(d1, u, []);
    } else {
      var d2 := Apply(d1, u);
      var c := Run(UnmountImage, o.clear);
      var pre := if d.mounted then [c] else [];
      var tail := if o.mount then [x] else [];
      assert CycleTrace(d.mounted, o) == [l] + ([u] + (pre + ([m] + tail)));
      Cons(d, l, [u] + (pre + ([m] + tail)));
      Cons(d1, u, pre + ([m] + tail));
      var d3 := d2;
      if d.mounted {
        Cons(d2, c, [m] + tail);
        d3 := Apply(d2, c);
        assert pre + ([m] + tail) == [c] + ([m] + tail);
      } else {
        assert pre + ([m] + tail) == [m] + tail;
      }
      Cons(d3, m, tail);
      if o.mount {
        Cons(Apply(d3, m), x, []);
      }
    }
  }

  /** A cycle that starts with the partition unmounted keeps it exclusive,
      and leaves it mounted only when its final unmount failed. */
  lemma CycleExclusive(d: Device, o: CycleInputs)
    requires !d.mounted
    ensures Exclusive(d, CycleTrace(false, o))
    ensures After(d, CycleTrace(false, o)).mounted <==> o.load && o.unload && o.mount && !o.unmount
    ensures o.load && o.unload ==> !After(d, CycleTrace(false, o)).gadget
  {
    var l, u := Run(LoadModule, o.load), Run(UnloadModule, o.unload);
    var m, x := Run(MountImage, o.mount), Run(UnmountImage, o.unmount);
    var d1 := Apply(d, l);
    if !o.load {
      Cons(d, l, []);
    } else if !o.unload {
      Cons(d, l, [u]);
      Cons(d1, u, []);
    } else {
      var d2 := Apply(d1, u);
      var tail := if o.mount then [x] else [];
      assert CycleTrace(false, o) == [l] + ([u] + ([m] + tail));
      Cons(d, l, [u] + ([m] + tail));
      Cons(d1, u, [m] + tail);
      Cons(d2, m, tail);
      if o.mount {
        Cons(Apply(d2, m), x, []);
      }
    }
  }

  /** A cycle that starts with the partition mounted, and whose modprobe
      succeeds, lends it to the host while it is mounted: right after the
      load both hold it. */
  lemma MountedCycleLoads(d: Device, o: CycleInputs)
    requires d.mounted && o.load
    ensures After(d, CycleTrace(d.mounted, o)[..1]) == Device(true, true)
    ensures !Exclusive(d, CycleTrace(d.mounted, o))
  {
    assert CycleTrace(d.mounted, o)[..1] == [Run(LoadModule, true)];
  }

  /** A cycle whose final unmount fails leaves the partition mounted, and
      the next cycle's successful modprobe then lends it to the host while
      it is mounted. */
  lemma FailedUnmountThenLoad(first: CycleInputs, second: CycleInputs)
    requires first.load && first.unload && first.mount && !first.unmount
    requires second.load
    ensures var d := After(Device(false, false), CycleTrace(false, first));
            d.mounted && !Exclusive(Device(false, false), CycleTrace(false, first) + CycleTrace(d.mounted, second))
    ensures var d := After(Device(false, false), CycleTrace(false, first));
            After(d, CycleTrace(d.mounted, second)[..1]) == Device(true, true)
  {
    var d0 := Device(false, false);
    CycleExclusive(d0, first);
    var d := After(d0, CycleTrace(false, first));
    ExclusiveAppend(d0, CycleTrace(false, first), CycleTrace(d.mounted, second));
    MountedCycleLoads(d, second);
  }

  lemma RunsAppend(a: seq<Run>, b: seq<Run>, c: seq<Run>)
    ensures (a + b) + c == a + (b + c)
  {
  }

  /** The guarded cycle: a partition still mounted is unmounted first, and
      the cycle gives up when that fails. */
  function GuardedTrace(mounted: bool, o: CycleInputs): seq<Run> {
    if !mounted then CycleTrace(false, o)
    else if !o.clear then [Run(UnmountImage, false)]
    else [Run(UnmountImage, true)] + CycleTrace(false, o)
  }

  /** The guarded cycle keeps the partition exclusive from any state. */
  lemma GuardedExclusive(d: Device, o: CycleInputs)
    requires !d.mounted || !d.gadget
    ensures Exclusive(d, GuardedTrace(d.mounted, o))
    ensures After(d, GuardedTrace(d.mounted, o)).mounted ==> !After(d, GuardedTrace(d.mounted, o)).gadget
  {
    var t := GuardedTrace(d.mounted, o);
    if !d.mounted {
      CycleExclusive(d, o);
    } else if !o.clear {
      Cons(d, Run(UnmountImage, false), []);
    } else {
      var d1 := Apply(d, Run(UnmountImage, true));
      Cons(d, Run(UnmountImage, true), CycleTrace(false, o));
      CycleExclusive(d1, o);
    }
  }

  /** Where the guarded cycle leaves the partition. */
  function GuardedEnd(d: Device, o: CycleInputs): Device {
    if !d.mounted then CycleEnd(d, o)
    else if !o.clear then d
    else CycleEnd(d.(mounted := false), o)
  }

  lemma GuardedEndIsAfter(d: Device, o: CycleInputs)
    ensures After(d, GuardedTrace(d.mounted, o)) == GuardedEnd(d, o)
  {
    if !d.mounted {
      CycleEndIsAfter(d, o);
    } else if !o.clear {
      Cons(d, Run(UnmountImage, false), []);
    } else {
      var d1 := Apply(d, Run(UnmountImage, true));
      Cons(d, Run(UnmountImage, true), CycleTrace(false, o));
      CycleEndIsAfter(d1, o);
    }
  }

  /** The commands `run`, from `d0`, kept the partition exclusive and left
      it in `d`, where the host and the Pi do not both hold it. */
  predicate Held(d0: Device, run: seq<Run>, d: Device) {
    Exclusive(d0, run) && After(d0, run) == d && (!d.mounted || !d.gadget)
  }

  /** A guarded cycle keeps the partition held. */
  lemma HeldCycle(d0: Device, run: seq<Run>, d: Device, o: CycleInputs)
    requires Held(d0, run, d)
    ensures Held(d0, run + GuardedTrace(d.mounted, o), GuardedEnd(d, o))
  {
    GuardedExclusive(d, o);
    GuardedEndIsAfter(d, o);
    ExclusiveAppend(d0, run, GuardedTrace(d.mounted, o));
  }

  /** Stopping the service: unload the gadget when it is loaded, then
      unmount the partition when it is mounted. */
  function CleanupTrace(d: Device, unload: bool, unmount: bool): seq<Run> {
    (if d.gadget then [Run(UnloadModule, unload)] else [])
    + (if d.mounted then [Run(UnmountImage, unmount)] else [])
  }

  /** Cleaning up after a held run keeps the partition exclusive. */
  lemma HeldCleanup(d0: Device, run: seq<Run>, d: Device, unload: bool, unmount: bool)
    requires Held(d0, run, d)
    ensures Exclusive(d0, run + CleanupTrace(d, unload, unmount))
  {
    CleanupExclusive(d, unload, unmount);
    ExclusiveAppend(d0, run, CleanupTrace(d, unload, unmount));
  }

  /** Cleaning up never lends or mounts the partition. */
  lemma CleanupExclusive(d: Device, unload: bool, unmount: bool)
    ensures Exclusive(d, CleanupTrace(d, unload, unmount))
  {
    var a := if d.gadget then [Run(UnloadModule, unload)] else [];
    var b := if d.mounted then [Run(UnmountImage, unmount)] else [];
    ExclusiveAppend(d, a, b);
    if d.gadget {
      Cons(d, Run(UnloadModule, unload), []);
    }
    if d.mounted {
      Cons(After(d, a), Run(UnmountImage, unmount), []);
    }
  }

  // ---------------------------------------------------------------------
  // The manager
  // ---------------------------------------------------------------------

  class GadgetManager {
    /** Set when the gadget was loaded, cleared when it was unloaded. */
    var gadgetLoaded: bool
    /** The newest modification time of the image seen so far. */
    var lastMtime: int
    /** Whether the partition is mounted at the mount point. */
    var mounted: bool
    /** The commands run so far, with their outcomes. */
    var log: seq<Run>

    constructor (mounted: bool)
      ensures !gadgetLoaded && lastMtime == 0 && this.mounted == mounted && log == []
    {
      gadgetLoaded := false;
      lastMtime := 0;
      this.mounted := mounted;
      log := [];
    }

    function State(): Device
      reads this
    {
      Device(gadgetLoaded, mounted)
    }

    /** load_gadget: the flag is set only when modprobe succeeds. */
    method LoadGadget(rc: bool) returns (ok: bool)
      modifies this
      ensures ok == rc && log == old(log) + [Run(LoadModule, rc)]
      ensures gadgetLoaded == (old(gadgetLoaded) || rc)
      ensures mounted == old(mounted) && lastMtime == old(lastMtime)
    {
      log := log + [Run(LoadModule, rc)];
      if rc {
        gadgetLoaded := true;
        return true;
      }
      return false;
    }

    /** unload_gadget: the flag is cleared only when `modprobe -r` succeeds. */
    method UnloadGadget(rc: bool) returns (ok: bool)
      modifies this
      ensures ok == rc && log == old(log) + [Run(UnloadModule, rc)]
      ensures gadgetLoaded == (old(gadgetLoaded) && !rc)
      ensures mounted == old(mounted) && lastMtime == old(lastMtime)
    {
      log := log + [Run(UnloadModule, rc)];
      if rc {
        gadgetLoaded := false;
        return true;
      }
      return false;
    }

    /** mount_image: a partition still mounted is unmounted first, without
        looking at the outcome; then the mount's status is the result. */
    method MountPartition(clear: bool, rc: bool) returns (ok: bool)
      modifies this
      ensures ok == rc
      ensures log == old(log) + (if old(mounted) then [Run(UnmountImage, clear)] else []) + [Run(MountImage, rc)]
      ensures mounted == (rc || (old(mounted) && !clear))
      ensures gadgetLoaded == old(gadgetLoaded) && lastMtime == old(lastMtime)
    {
      if mounted {
        log := log + [Run(UnmountImage, clear)];
        mounted := !clear;
      }
      log := log + [Run(MountImage, rc)];
      if rc {
        mounted := true;
      }
      ok := rc;
    }

    /** unmount_image. */
    method UnmountPartition(rc: bool) returns (ok: bool)
      modifies this
      ensures ok == rc && log == old(log) + [Run(UnmountImage, rc)]
      ensures mounted == (old(mounted) && !rc)
      ensures gadgetLoaded == old(gadgetLoaded) && lastMtime == old(lastMtime)
    {
      log := log + [Run(UnmountImage, rc)];
      if rc {
        mounted := false;
      }
      ok := rc;
    }

    /** One poll of wait_for_quiet_window: record a newer modification
        time, then end the wait when quiet or when the host is gone. */
    method PollOnce(s: Sample, lastActivity: int) returns (halt: bool, activity: int)
      modifies this
      ensures Watch(lastMtime, activity) == Observe(Watch(old(lastMtime), lastActivity), s)
      ensures halt == Halts(Watch(old(lastMtime), lastActivity), s)
      ensures gadgetLoaded == old(gadgetLoaded) && mounted == old(mounted) && log == old(log)
    {
      activity := lastActivity;
      var currentMtime := ImageMtime(s);
      if currentMtime > lastMtime {
        lastMtime := currentMtime;
        activity := s.now;
      }
      if s.now - activity >= QuietWindowS {
        return true, activity;
      }
      var state := GadgetUdcState(s.udcDirs, s.sysfs);
      halt := state != Some("configured");
    }

    /** wait_for_quiet_window over the polls given: it ends at the first
        poll that is quiet for 30 seconds or finds the host gone, having
        recorded every newer modification time up to there. `quiet` is
        false only when the polls ran out first. */
    method WaitForQuietWindow(start: int, samples: seq<Sample>) returns (quiet: bool, polls: nat)
      modifies this
      ensures WaitEnds(Watch(old(lastMtime), start), samples, quiet, polls, lastMtime)
      ensures lastMtime >= old(lastMtime)
      ensures gadgetLoaded == old(gadgetLoaded) && mounted == old(mounted) && log == old(log)
    {
      ghost var w0 := Watch(lastMtime, start);
      var lastActivity := start;
      var i := 0;
      while i < |samples|
        invariant 0 <= i <= |samples|
        invariant Watch(lastMtime, lastActivity) == Track(w0, samples, i)
        invariant Waits(w0, samples, i) && lastMtime >= w0.lastMtime
        invariant gadgetLoaded == old(gadgetLoaded) && mounted == old(mounted) && log == old(log)
      {
        var halt;
        halt, lastActivity := PollOnce(samples[i], lastActivity);
        if halt {
          HaltEnds(w0, samples, i);
          TrackIsNewest(w0, samples, i + 1);
          return true, i + 1;
        }
        WaitsSnoc(w0, samples, i);
        TrackIsNewest(w0, samples, i + 1);
        i := i + 1;
      }
      return false, |samples|;
    }

    /** run_duty_cycle: lend the partition and wait for a quiet window,
        then take it back and harvest it; the result is false at the first
        command that fails. The wait runs only when the gadget loaded, and
        the newest modification time it recorded carries over to the next
        cycle. */
    method RunDutyCycle(o: CycleInputs) returns (ok: bool, ghost quiet: bool, ghost polls: nat)
      modifies this
      ensures ok <==> o.load && o.unload && o.mount && o.unmount
      ensures log == old(log) + CycleTrace(old(mounted), o)
      ensures State() == CycleEnd(old(State()), o)
      ensures !o.load ==> lastMtime == old(lastMtime) && !quiet && polls == 0
      ensures o.load ==> WaitEnds(Watch(old(lastMtime), o.start), o.samples, quiet, polls, lastMtime)
    {
      var loaded;
      loaded, quiet, polls := Lend(o);
      if !loaded {
        return false, quiet, polls;
      }
      ok := TakeBack(o);
    }

    /** The first half of run_duty_cycle: load the gadget and, only when
        that succeeded, wait for a quiet window from the load time. */
    method Lend(o: CycleInputs) returns (loaded: bool, ghost quiet: bool, ghost polls: nat)
      modifies this
      ensures loaded == o.load && log == old(log) + [Run(LoadModule, o.load)]
      ensures gadgetLoaded == (old(gadgetLoaded) || o.load) && mounted == old(mounted)
      ensures !o.load ==> lastMtime == old(lastMtime) && !quiet && polls == 0
      ensures o.load ==> WaitEnds(Watch(old(lastMtime), o.start), o.samples, quiet, polls, lastMtime)
    {
      quiet, polls := false, 0;
      loaded := LoadGadget(o.load);
      if loaded {
        quiet, polls := WaitForQuietWindow(o.start, o.samples);
      }
    }

    /** The second half of run_duty_cycle: unload the gadget, mount the
        partition, harvest it and unmount it, stopping at the first command
        that fails. */
    method TakeBack(o: CycleInputs) returns (ok: bool)
      modifies this
      ensures ok <==> o.unload && o.mount && o.unmount
      ensures log == old(log) + TakeBackTrace(old(mounted), o)
      ensures State() == TakeBackEnd(old(State()), o)
      ensures lastMtime == old(lastMtime)
    {
      ghost var start := log;
      var unloaded := UnloadGadget(o.unload);
      if !unloaded {
        return false;
      }
      ghost var run := [Run(UnloadModule, true)] + (if old(mounted) then [Run(UnmountImage, o.clear)] else []);
      var mountOk := MountPartition(o.clear, o.mount);
      assert log == start + (run + [Run(MountImage, o.mount)]);
      run := run + [Run(MountImage, o.mount)];
      if !mountOk {
        return false;
      }
      ok := UnmountPartition(o.unmount);
      assert log == start + (run + [Run(UnmountImage, o.unmount)]);
    }

    /** The duty cycle as it is meant to run: a partition still mounted
        from an earlier cycle is unmounted before the gadget is loaded, and
        the cycle gives up when that fails. */
    method GuardedCycle(o: CycleInputs) returns (ok: bool, ghost quiet: bool, ghost polls: nat)
      modifies this
      ensures ok <==> (!old(mounted) || o.clear) && o.load && o.unload && o.mount && o.unmount
      ensures log == old(log) + GuardedTrace(old(mounted), o)
      ensures State() == GuardedEnd(old(State()), o)
      ensures !((!old(mounted) || o.clear) && o.load) ==> lastMtime == old(lastMtime) && !quiet && polls == 0
      ensures (!old(mounted) || o.clear) && o.load ==>
        WaitEnds(Watch(old(lastMtime), o.start), o.samples, quiet, polls, lastMtime)
    {
      if mounted {
        var cleared := UnmountPartition(o.clear);
        if !cleared {
          return false, false, 0;
        }
        ok, quiet, polls := RunDutyCycle(o);
        RunsAppend(old(log), [Run(UnmountImage, true)], CycleTrace(false, o));
      } else {
        ok, quiet, polls := RunDutyCycle(o);
      }
    }

    /** The service loop with the guarded cycle: one cycle per entry of
        `cycles`, then the cleanup. From a state in which the host and the
        Pi do not both hold the partition, they never do, and no command
        lends a mounted partition or mounts a lent one. */
    method Serve(cycles: seq<CycleInputs>, unload: bool, unmount: bool) returns (ghost run: seq<Run>)
      requires !mounted || !gadgetLoaded
      modifies this
      ensures log == old(log) + run && Exclusive(old(State()), run)
      ensures unload && unmount ==> !gadgetLoaded && !mounted
    {
      ghost var d0 := State();
      run := RunCycles(cycles);
      ghost var d := State();
      Cleanup(unload, unmount);
      HeldCleanup(d0, run, d, unload, unmount);
      run := run + CleanupTrace(d, unload, unmount);
    }

    /** The cycles of the service loop, one per entry of `cycles`. */
    method RunCycles(cycles: seq<CycleInputs>) returns (ghost run: seq<Run>)
      requires !mounted || !gadgetLoaded
      modifies this
      ensures log == old(log) + run && Held(old(State()), run, State())
    {
      ghost var d0 := State();
      run := [];
      assert Held(d0, run, d0);
      for i := 0 to |cycles|
        invariant log == old(log) + run && Held(d0, run, State())
      {
        ghost var d := State();
        var _, _, _ := GuardedCycle(cycles[i]);
        HeldCycle(d0, run, d, cycles[i]);
        run := run + GuardedTrace(d.mounted, cycles[i]);
      }
    }

    /** cleanup: unload the gadget when the flag says it is loaded, then
        unmount the partition when it is mounted. */
    method Cleanup(unload: bool, unmount: bool)
      modifies this
      ensures log == old(log) + CleanupTrace(old(State()), unload, unmount)
      ensures gadgetLoaded == (old(gadgetLoaded) && !unload) && mounted == (old(mounted) && !unmount)
    {
      if gadgetLoaded {
        var _ := UnloadGadget(unload);
      }
      if mounted {
        var _ := UnmountPartition(unmount);
      }
    }
  }
}
