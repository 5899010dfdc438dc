/**
 * The operating-system port the window/mute controllers drive:
 * `win32gui.ShowWindow` and the pycaw endpoint (`GetMute`, `SetMute`,
 * `GetMasterVolumeLevelScalar`, `SetMasterVolumeLevelScalar`).
 *
 * The endpoint may be absent (pycaw initialisation failed and
 * `self.volume` is `None`). Any endpoint call may raise; which one raises
 * in a given invocation is an input (`Faults`). A raising call is still
 * recorded as issued and leaves the device as it was.
 */
module Ports {
  import opened Wrappers

  /** A top-level window handle (an `int` on the Python side). */
  type Handle = int
  type Title = string

  /** The listbox entry `(title, hwnd)` the user has selected. */
  datatype Selection = Selection(title: Title, hwnd: Handle)

  datatype ShowCmd = SwHide | SwRestore

  /** One call issued to the port, in the order issued. */
  datatype Call =
    | ShowWindow(hwnd: Handle, cmd: ShowCmd)
    | GetMute
    | GetMasterVolumeLevelScalar
    | SetMute(on: bool)
    | SetMasterVolumeLevelScalar(level: real)
  {
    predicate IsAudio() { !ShowWindow? }
  }

  /** Which endpoint calls raise during one invocation. */
  datatype Faults = Faults(getMute: bool, getLevel: bool, setMute: bool, setLevel: bool)

  const NoFaults := Faults(false, false, false, false)

  /** The endpoint's observable state: the mute flag and the master volume scalar. */
  datatype Device = Device(muted: bool, level: real)

  /** The calls a log gained in growing from `before` to `after`. */
  function Issued(before: seq<Call>, after: seq<Call>): seq<Call>
    requires before <= after
  {
    after[|before|..]
  }

  predicate NoAudioCalls(calls: seq<Call>) {
    forall i :: 0 <= i < |calls| ==> !calls[i].IsAudio()
  }

  predicate NoSetMute(calls: seq<Call>) {
    forall i :: 0 <= i < |calls| ==> !calls[i].SetMute?
  }

  class Port {
    /** False when no audio endpoint could be opened. */
    const hasEndpoint: bool
    var muted: bool
    var level: real
    ghost var log: seq<Call>

    constructor (hasEndpoint: bool, device: Device)
      ensures this.hasEndpoint == hasEndpoint
      ensures muted == device.muted && level == device.level && log == []
    {
      this.hasEndpoint := hasEndpoint;
      muted, level := device.muted, device.level;
      log := [];
    }

    ghost function DeviceState(): Device
      reads this
    {
      Device(muted, level)
    }

    method ShowWindow(hwnd: Handle, cmd: ShowCmd)
      modifies this`log
      ensures log == old(log) + [Call.ShowWindow(hwnd, cmd)]
    {
      log := log + [Call.ShowWindow(hwnd, cmd)];
    }

    /** `GetMute()`: `None` when the call raised. */
    method GetMute(raises: bool) returns (r: Option<bool>)
      requires hasEndpoint
      modifies this`log
      ensures log == old(log) + [Call.GetMute]
      ensures r == if raises then None else Some(muted)
    {
      log := log + [Call.GetMute];
      r := if raises then None else Some(muted);
    }

    /** `GetMasterVolumeLevelScalar()`: `None` when the call raised. */
    method GetMasterVolumeLevelScalar(raises: bool) returns (r: Option<real>)
      requires hasEndpoint
      modifies this`log
      ensures log == old(log) + [Call.GetMasterVolumeLevelScalar]
      ensures r == if raises then None else Some(level)
    {
      log := log + [Call.GetMasterVolumeLevelScalar];
      r := if raises then None else Some(level);
    }

    /** `SetMute(on, None)`: `ok` is false when the call raised. */
    method SetMute(on: bool, raises: bool) returns (ok: bool)
      requires hasEndpoint
      modifies this`log, this`muted
      ensures log == old(log) + [Call.SetMute(on)]
      ensures ok == !raises
      ensures muted == if raises then old(muted) else on
    {
      log := log + [Call.SetMute(on)];
      ok := !raises;
      if ok {
        muted := on;
      }
    }

    /** `SetMasterVolumeLevelScalar(v, None)`: `ok` is false when the call raised. */
    method SetMasterVolumeLevelScalar(v: real, raises: bool) returns (ok: bool)
      requires hasEndpoint
      modifies this`log, this`level
      ensures log == old(log) + [Call.SetMasterVolumeLevelScalar(v)]
      ensures ok == !raises
      ensures level == if raises then old(level) else v
    {
      log := log + [Call.SetMasterVolumeLevelScalar(v)];
      ok := !raises;
      if ok {
        level := v;
      }
    }
  }
}
