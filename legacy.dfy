/**
 * The earlier toggle of main.py's `SkiHideApp`, kept as its own model.
 * It differs from skihide/app.py: every hide (not only the first) takes a
 * fresh mute snapshot, it mutes only when the volume is above zero, and
 * it unmutes on any show, not only the last.
 */
module Legacy {
  import opened Wrappers
  import opened Ports

  /** The build number main.py reports (`self.current_build`). */
  const CurrentBuild := 26000

  /** `compare_builds`: whether the server's build is offered as an update. */
  function CompareBuilds(newBuild: int): bool {
    newBuild > CurrentBuild
  }

  /** Offers are monotone: a build at least as new as an offered one is offered too. */
  lemma OffersAreMonotone(a: int, b: int)
    requires a <= b
    ensures CompareBuilds(a) ==> CompareBuilds(b)
    ensures !CompareBuilds(b) ==> !CompareBuilds(a)
  {
  }

  /** The boundary: the running build 26000 is not offered, 26001 is. */
  lemma OfferBoundary()
    ensures !CompareBuilds(26000) && CompareBuilds(26001)
  {
  }

  /** The fields `hidden_windows`, `is_muted`, `original_muted_state`, the device and the call log. */
  datatype LegacyWorld = LegacyWorld(hidden: map<Handle, Title>, isMuted: bool, originalMuted: bool,
                                     device: Device, log: seq<Call>)

  /** The unmute attempted after a show. */
  function AfterShow(w: LegacyWorld, muteAfterHide: bool, hasEndpoint: bool, f: Faults): (r: LegacyWorld)
    ensures r.hidden == w.hidden && w.log <= r.log
    ensures (muteAfterHide && w.isMuted && hasEndpoint && !w.originalMuted) <==> Issued(w.log, r.log) == [SetMute(false)]
    ensures !(muteAfterHide && w.isMuted && hasEndpoint && !w.originalMuted) ==> r == w
    ensures r.isMuted == (w.isMuted && !(muteAfterHide && hasEndpoint && !w.originalMuted && !f.setMute))
    ensures r.device.level == w.device.level
    ensures r.device.muted == (if w.isMuted && muteAfterHide && hasEndpoint && !w.originalMuted && !f.setMute
                               then false else w.device.muted)
  {
    if muteAfterHide && w.isMuted && hasEndpoint && !w.originalMuted then
      if f.setMute then w.(log := w.log + [SetMute(false)])
      else w.(isMuted := false, device := w.device.(muted := false), log := w.log + [SetMute(false)])
    else w
  }

  /** The snapshot and mute attempted after a hide. */
  function AfterHide(w: LegacyWorld, muteAfterHide: bool, hasEndpoint: bool, f: Faults): (r: LegacyWorld)
    ensures r.hidden == w.hidden && w.log <= r.log
    ensures !(muteAfterHide && hasEndpoint) ==> r == w
  {
    if !(muteAfterHide && hasEndpoint) then w
    else if f.getMute then w.(log := w.log + [GetMute])
    else if f.getLevel then w.(log := w.log + [GetMute, GetMasterVolumeLevelScalar])
    else
      var current := w.device;
      var w1 := w.(originalMuted := current.muted, log := w.log + [GetMute, GetMasterVolumeLevelScalar]);
      if !current.muted && current.level > 0.0 then
        var r := w1.(log := w1.log + [SetMute(true)]);
        if f.setMute then r else r.(isMuted := true, device := current.(muted := true))
      else w1.(isMuted := current.muted)
  }

  /**
   * Every hide overwrites the snapshot once both reads answered; it mutes
   * only an unmuted endpoint with a volume above zero, and otherwise lets
   * `is_muted` follow the endpoint; it never unmutes.
   */
  lemma AfterHideContract(w: LegacyWorld, muteAfterHide: bool, hasEndpoint: bool, f: Faults)
    ensures var r := AfterHide(w, muteAfterHide, hasEndpoint, f);
      && (muteAfterHide && hasEndpoint && !f.getMute && !f.getLevel ==> r.originalMuted == w.device.muted)
      && (muteAfterHide && hasEndpoint && (f.getMute || f.getLevel) ==>
            r.isMuted == w.isMuted && r.originalMuted == w.originalMuted && r.device == w.device)
      && (SetMute(true) in Issued(w.log, r.log) <==>
            muteAfterHide && hasEndpoint && !f.getMute && !f.getLevel && !w.device.muted && w.device.level > 0.0)
      && (muteAfterHide && hasEndpoint && !f.getMute && !f.getLevel && !(!w.device.muted && w.device.level > 0.0) ==>
            r.isMuted == w.device.muted && r.device == w.device)
      && (muteAfterHide && hasEndpoint && !f.getMute && !f.getLevel && !w.device.muted && w.device.level > 0.0 ==>
            r.isMuted == (w.isMuted || !f.setMute) && r.device == w.device.(muted := !f.setMute))
      && SetMute(false) !in Issued(w.log, r.log)
  {
    var r := AfterHide(w, muteAfterHide, hasEndpoint, f);
    if muteAfterHide && hasEndpoint && !f.getMute && !f.getLevel {
      if !w.device.muted && w.device.level > 0.0 {
        assert Issued(w.log, r.log) == [GetMute, GetMasterVolumeLevelScalar, SetMute(true)];
      } else {
        assert Issued(w.log, r.log) == [GetMute, GetMasterVolumeLevelScalar];
      }
    }
  }

  /**
   * main.py's `toggle_window`: a hidden window is shown, forgotten and
   * audio possibly unmuted; any other window is hidden, remembered and
   * audio possibly muted.
   */
  function LegacyToggle(w: LegacyWorld, muteAfterHide: bool, hasEndpoint: bool, selection: Option<Selection>, f: Faults)
    : (r: LegacyWorld)
    ensures selection.None? ==> r == w
    ensures selection.Some? && selection.value.hwnd in w.hidden ==>
      && r.hidden == w.hidden - {selection.value.hwnd}
      && w.log <= r.log && |r.log| > |w.log| && r.log[|w.log|] == ShowWindow(selection.value.hwnd, SwRestore)
    ensures selection.Some? && selection.value.hwnd !in w.hidden ==>
      && r.hidden == w.hidden[selection.value.hwnd := selection.value.title]
      && w.log <= r.log && |r.log| > |w.log| && r.log[|w.log|] == ShowWindow(selection.value.hwnd, SwHide)
    // a show never mutes, a hide never unmutes
    ensures selection.Some? && selection.value.hwnd in w.hidden ==>
      SetMute(true) !in Issued(w.log, r.log) && (r.device.muted ==> w.device.muted)
    ensures selection.Some? && selection.value.hwnd !in w.hidden ==> SetMute(false) !in Issued(w.log, r.log)
  {
    match selection
    case None => w
    case Some(Selection(title, hwnd)) =>
      if hwnd in w.hidden then
        var w1 := w.(hidden := w.hidden - {hwnd}, log := w.log + [ShowWindow(hwnd, SwRestore)]);
        var r := AfterShow(w1, muteAfterHide, hasEndpoint, f);
        assert Issued(w.log, r.log) == [ShowWindow(hwnd, SwRestore)] + Issued(w1.log, r.log);
        r
      else
        var w1 := w.(hidden := w.hidden[hwnd := title], log := w.log + [ShowWindow(hwnd, SwHide)]);
        var r := AfterHide(w1, muteAfterHide, hasEndpoint, f);
        AfterHideContract(w1, muteAfterHide, hasEndpoint, f);
        assert Issued(w.log, r.log) == [ShowWindow(hwnd, SwHide)] + Issued(w1.log, r.log);
        r
  }

  /** The scenario of the finding: two hides, then two shows, nothing raising. */
  function TwoWindowEpisode(w: LegacyWorld, a: Selection, b: Selection): LegacyWorld {
    var w1 := LegacyToggle(w, true, true, Some(a), NoFaults);
    var w2 := LegacyToggle(w1, true, true, Some(b), NoFaults);
    var w3 := LegacyToggle(w2, true, true, Some(a), NoFaults);
    LegacyToggle(w3, true, true, Some(b), NoFaults)
  }

  /**
   * As written, the second hide snapshots the application's own mute as
   * the user's (`original_muted_state` becomes true), so neither show
   * unmutes: all windows are back and the system stays muted.
   */
  lemma TwoHidesLeaveSystemMuted(w: LegacyWorld, a: Selection, b: Selection)
    requires w.hidden == map[] && a.hwnd != b.hwnd
    requires !w.device.muted && w.device.level > 0.0
    ensures TwoWindowEpisode(w, a, b).hidden == map[]
    ensures TwoWindowEpisode(w, a, b).device.muted
  {
    var w1 := LegacyToggle(w, true, true, Some(a), NoFaults);
    assert w1.device.muted && w1.isMuted;
    var w2 := LegacyToggle(w1, true, true, Some(b), NoFaults);
    assert w2.originalMuted && w2.device.muted;
    var w3 := LegacyToggle(w2, true, true, Some(a), NoFaults);
    assert w3.device == w2.device && w3.originalMuted;
    var w4 := LegacyToggle(w3, true, true, Some(b), NoFaults);
    assert w4.hidden == map[] by {
      assert w2.hidden.Keys == {a.hwnd, b.hwnd};
    }
  }

  class LegacyApp {
    var hiddenWindows: map<Handle, Title>
    var muteAfterHide: bool
    var isMuted: bool
    var originalMutedState: bool
    const port: Port

    ghost function State(): LegacyWorld
      reads this, port
    {
      LegacyWorld(hiddenWindows, isMuted, originalMutedState, port.DeviceState(), port.log)
    }

    /**
     * `__init__`: `is_muted` starts as the endpoint's mute flag. An
     * endpoint whose first `GetMute` raises is dropped by the source
     * (`self.volume = None`), so it is a port without an endpoint here.
     */
    constructor (port: Port, muteAfterHide: bool)
      modifies port`log
      ensures this.port == port && this.muteAfterHide == muteAfterHide
      ensures hiddenWindows == map[] && !originalMutedState
      ensures isMuted == (port.hasEndpoint && port.muted)
      ensures port.log == old(port.log) + (if port.hasEndpoint then [GetMute] else [])
      ensures port.muted == old(port.muted) && port.level == old(port.level)
    {
      this.port := port;
      this.muteAfterHide := muteAfterHide;
      hiddenWindows := map[];
      originalMutedState := false;
      isMuted := false;
      new;
      if port.hasEndpoint {
        var m := port.GetMute(false);
        isMuted := m.value;
      }
    }

    /** The unmute branch of `toggle_window` after a show. */
    method UnmuteAfterShow(f: Faults)
      modifies this, port
      ensures muteAfterHide == old(muteAfterHide)
      ensures State() == AfterShow(old(State()), muteAfterHide, port.hasEndpoint, f)
    {
      if muteAfterHide && isMuted && port.hasEndpoint && !originalMutedState {
        var ok := port.SetMute(false, f.setMute);
        if ok {
          isMuted := false;
        }
      }
    }

    /** The snapshot-and-mute branch of `toggle_window` after a hide. */
    method MuteAfterHide(f: Faults)
      modifies this, port
      ensures muteAfterHide == old(muteAfterHide)
      ensures State() == AfterHide(old(State()), muteAfterHide, port.hasEndpoint, f)
    {
      if muteAfterHide && port.hasEndpoint {
        var currentMute := port.GetMute(f.getMute);
        if currentMute.None? {
          return;
        }
        var currentVolume := port.GetMasterVolumeLevelScalar(f.getLevel);
        if currentVolume.None? {
          return;
        }
        originalMutedState := currentMute.value;
        if !currentMute.value && currentVolume.value > 0.0 {
          var ok := port.SetMute(true, f.setMute);
          if ok {
            isMuted := true;
          }
        } else {
          isMuted := currentMute.value;
        }
      }
    }

    method ToggleWindow(selection: Option<Selection>, f: Faults)
      modifies this, port
      ensures muteAfterHide == old(muteAfterHide)
      ensures State() == LegacyToggle(old(State()), muteAfterHide, port.hasEndpoint, selection, f)
    {
      if selection.None? {
        return;
      }
      var title, hwnd := selection.value.title, selection.value.hwnd;
      if hwnd in hiddenWindows {
        port.ShowWindow(hwnd, SwRestore);
        hiddenWindows := hiddenWindows - {hwnd};
        UnmuteAfterShow(f);
      } else {
        port.ShowWindow(hwnd, SwHide);
        hiddenWindows := hiddenWindows[hwnd := title];
        MuteAfterHide(f);
      }
    }
  }
}
