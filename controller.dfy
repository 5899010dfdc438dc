/**
 * The hide/restore and mute state machine of `SkiHideApp` (skihide/app.py).
 *
 * `hidden_windows` maps each window the application hid to its title.
 * Audio is touched only at episode boundaries: the mute routine runs when
 * a hide makes the map hold exactly one entry, the restore routine when a
 * show empties it. `muted_by_app` records that the application, not the
 * user, muted the endpoint; only then does the restore routine undo it.
 *
 * The behaviour is given first as functions over a `World` value (the
 * controller's fields, the device and the call log), then by the class
 * `SkiHideApp`, whose methods are proved to do exactly what the functions say.
 */
module Controller {
  import opened Wrappers
  import opened Ports

  /** The fields `muted_by_app`, `original_muted_state` and `saved_volume`. */
  datatype AudioState = AudioState(mutedByApp: bool, originalMuted: bool, savedVolume: Option<real>)

  const InitialAudio := AudioState(false, false, None)

  /** Everything a toggle reads or changes. */
  datatype World = World(hidden: map<Handle, Title>, audio: AudioState, device: Device, log: seq<Call>)

  /** `r` differs from `w` only by audio calls issued, and by what they did to the device and the audio fields. */
  ghost predicate AudioOnly(w: World, r: World) {
    && r.hidden == w.hidden
    && w.log <= r.log
    && (forall i :: |w.log| <= i < |r.log| ==> r.log[i].IsAudio())
  }

  /**
   * `_mute_system_if_needed`: with `mute_after_hide` set, an endpoint, and
   * no mute of its own already in force, snapshot the mute flag and the
   * volume, and mute only if the user had not muted.
   */
  function MuteIfNeeded(w: World, muteAfterHide: bool, hasEndpoint: bool, f: Faults): (r: World)
    ensures AudioOnly(w, r)
    // gating: no setting, no endpoint, or a mute already owned: nothing at all
    ensures !muteAfterHide || !hasEndpoint || w.audio.mutedByApp ==> r == w
  {
    if !muteAfterHide || !hasEndpoint || w.audio.mutedByApp then w
    else if f.getMute then w.(log := w.log + [GetMute])
    else
      var saved := if f.getLevel then None else Some(w.device.level);
      var w1 := w.(audio := w.audio.(originalMuted := w.device.muted, savedVolume := saved),
                   log := w.log + [GetMute, GetMasterVolumeLevelScalar]);
      if w.device.muted then w1
      else if f.setMute then w1.(log := w1.log + [SetMute(true)])
      else w1.(audio := w1.audio.(mutedByApp := true), device := w1.device.(muted := true),
               log := w1.log + [SetMute(true)])
  }

  /**
   * What the mute routine does once it runs: the snapshot is taken when
   * `GetMute` answers; `SetMute(True)` is issued only if the user had not
   * muted; ownership is taken only if that call succeeded; it never
   * unmutes and never sets the volume.
   */
  lemma MuteOwnership(w: World, muteAfterHide: bool, hasEndpoint: bool, f: Faults)
    ensures var r := MuteIfNeeded(w, muteAfterHide, hasEndpoint, f);
      && ((!muteAfterHide || !hasEndpoint || w.audio.mutedByApp) <==> r.log == w.log)
      && (muteAfterHide && hasEndpoint && !w.audio.mutedByApp && !f.getMute ==>
            && r.audio.originalMuted == w.device.muted
            && r.audio.savedVolume == (if f.getLevel then None else Some(w.device.level)))
      && (muteAfterHide && hasEndpoint && !w.audio.mutedByApp && f.getMute ==>
            r.audio == w.audio && r.device == w.device && Issued(w.log, r.log) == [GetMute])
      && (SetMute(true) in Issued(w.log, r.log) <==>
            muteAfterHide && hasEndpoint && !w.audio.mutedByApp && !f.getMute && !w.device.muted)
      && (r.audio.mutedByApp <==>
            w.audio.mutedByApp || (muteAfterHide && hasEndpoint && !f.getMute && !w.device.muted && !f.setMute))
      && r.device == (if r.audio.mutedByApp && !w.audio.mutedByApp then w.device.(muted := true) else w.device)
      && NoSetMuteFalse(Issued(w.log, r.log))
      && (forall i :: 0 <= i < |Issued(w.log, r.log)| ==> !Issued(w.log, r.log)[i].SetMasterVolumeLevelScalar?)
  {
    var r := MuteIfNeeded(w, muteAfterHide, hasEndpoint, f);
    if muteAfterHide && hasEndpoint && !w.audio.mutedByApp && !f.getMute {
      assert Issued(w.log, r.log) == if w.device.muted then [GetMute, GetMasterVolumeLevelScalar]
                               else [GetMute, GetMasterVolumeLevelScalar, SetMute(true)];
    }
  }

  predicate NoSetMuteFalse(calls: seq<Call>) {
    forall i :: 0 <= i < |calls| ==> calls[i] != SetMute(false)
  }

  /**
   * `_restore_system_audio_if_needed`: if the application muted, put the
   * mute flag back to `original_muted_state`, reapply a captured volume and
   * give up ownership.
   */
  function RestoreIfNeeded(w: World, hasEndpoint: bool, f: Faults): (r: World)
    ensures AudioOnly(w, r)
    ensures !hasEndpoint || !w.audio.mutedByApp ==> r == w
  {
    if !hasEndpoint || !w.audio.mutedByApp then w
    else if f.setMute then w.(log := w.log + [SetMute(w.audio.originalMuted)])
    else
      var w1 := w.(device := w.device.(muted := w.audio.originalMuted),
                   log := w.log + [SetMute(w.audio.originalMuted)]);
      var w2 :=
        match w.audio.savedVolume
        case None => w1
        case Some(v) =>
          w1.(device := if f.setLevel then w1.device else w1.device.(level := v),
              log := w1.log + [SetMasterVolumeLevelScalar(v)]);
      w2.(audio := w2.audio.(mutedByApp := false))
  }

  /**
   * What the restore routine does once it runs: `SetMute` back to the
   * original flag first; if that raised, ownership is kept and nothing else
   * happens; otherwise the saved volume, if any, is reapplied and ownership
   * is given up. It never reads the endpoint.
   */
  lemma RestoreContract(w: World, hasEndpoint: bool, f: Faults)
    ensures var r := RestoreIfNeeded(w, hasEndpoint, f);
      && (hasEndpoint && w.audio.mutedByApp ==> |r.log| > |w.log| && r.log[|w.log|] == SetMute(w.audio.originalMuted))
      && (hasEndpoint && w.audio.mutedByApp && f.setMute ==>
            r.audio == w.audio && r.device == w.device && Issued(w.log, r.log) == [SetMute(w.audio.originalMuted)])
      && (hasEndpoint && w.audio.mutedByApp && !f.setMute ==>
            && r.audio == w.audio.(mutedByApp := false)
            && r.device.muted == w.audio.originalMuted
            && Issued(w.log, r.log) == [SetMute(w.audio.originalMuted)] +
                 (if w.audio.savedVolume.Some? then [SetMasterVolumeLevelScalar(w.audio.savedVolume.value)] else [])
            && r.device.level ==
                 (if w.audio.savedVolume.Some? && !f.setLevel then w.audio.savedVolume.value else w.device.level))
      && GetMute !in Issued(w.log, r.log) && GetMasterVolumeLevelScalar !in Issued(w.log, r.log)
  {
  }

  /** The hide or show call a toggle of `hwnd` issues first. */
  function WindowCall(w: World, hwnd: Handle): Call {
    if hwnd in w.hidden then ShowWindow(hwnd, SwRestore) else ShowWindow(hwnd, SwHide)
  }

  /** A toggle of `hwnd` ends an episode (its one hidden window is shown) or starts one. */
  predicate Boundary(w: World, hwnd: Handle) {
    if hwnd in w.hidden then w.hidden.Keys == {hwnd} else w.hidden == map[]
  }

  lemma MapSizes(m: map<Handle, Title>, h: Handle, t: Title)
    ensures h in m ==> (|m - {h}| == 0 <==> m.Keys == {h})
    ensures h !in m ==> (|m[h := t]| == 1 <==> m == map[])
  {
    if h in m {
      assert (m - {h}).Keys == m.Keys - {h};
      if |m - {h}| == 0 {
        assert (m - {h}).Keys == {};
        assert m.Keys == {h};
      }
    } else {
      assert m[h := t].Keys == m.Keys + {h};
      assert |m[h := t].Keys| == |m.Keys| + 1;
      if |m| == 0 {
        assert m.Keys == {};
      }
    }
  }

  /**
   * `toggle_window`: with nothing selected, nothing happens; a hidden
   * window is shown and forgotten, any other window is hidden and
   * remembered with its title; audio changes only at episode boundaries.
   */
  function Toggle(w: World, muteAfterHide: bool, hasEndpoint: bool, selection: Option<Selection>, f: Faults): (r: World)
    ensures selection.None? ==> r == w
    ensures selection.Some? ==>
      w.log <= r.log && |r.log| > |w.log| && r.log[|w.log|] == WindowCall(w, selection.value.hwnd)
    ensures selection.Some? && selection.value.hwnd in w.hidden ==>
      r.hidden == w.hidden - {selection.value.hwnd}
    ensures selection.Some? && selection.value.hwnd !in w.hidden ==>
      r.hidden == w.hidden[selection.value.hwnd := selection.value.title]
    // within an episode: one window call and nothing else
    ensures selection.Some? && !Boundary(w, selection.value.hwnd) ==>
      r.audio == w.audio && r.device == w.device && Issued(w.log, r.log) == [WindowCall(w, selection.value.hwnd)]
  {
    match selection
    case None => w
    case Some(Selection(title, hwnd)) =>
      MapSizes(w.hidden, hwnd, title);
      if hwnd in w.hidden then
        var w1 := w.(hidden := w.hidden - {hwnd}, log := w.log + [ShowWindow(hwnd, SwRestore)]);
        if |w1.hidden| == 0 then RestoreIfNeeded(w1, hasEndpoint, f) else w1
      else
        var w1 := w.(hidden := w.hidden[hwnd := title], log := w.log + [ShowWindow(hwnd, SwHide)]);
        if |w1.hidden| == 1 then MuteIfNeeded(w1, muteAfterHide, hasEndpoint, f) else w1
  }

  /** The state right after the window call of a toggle of `s`, before any audio routine. */
  function AfterWindowCall(w: World, s: Selection): World {
    if s.hwnd in w.hidden then w.(hidden := w.hidden - {s.hwnd}, log := w.log + [ShowWindow(s.hwnd, SwRestore)])
    else w.(hidden := w.hidden[s.hwnd := s.title], log := w.log + [ShowWindow(s.hwnd, SwHide)])
  }

  /**
   * At an episode boundary a toggle is its window call followed by exactly
   * the restore routine (last show) or the mute routine (first hide).
   */
  lemma ToggleAtBoundary(w: World, muteAfterHide: bool, hasEndpoint: bool, s: Selection, f: Faults)
    requires Boundary(w, s.hwnd)
    ensures Toggle(w, muteAfterHide, hasEndpoint, Some(s), f) ==
      if s.hwnd in w.hidden then RestoreIfNeeded(AfterWindowCall(w, s), hasEndpoint, f)
      else MuteIfNeeded(AfterWindowCall(w, s), muteAfterHide, hasEndpoint, f)
  {
    MapSizes(w.hidden, s.hwnd, s.title);
  }

  class SkiHideApp {
    var hiddenWindows: map<Handle, Title>
    var muteAfterHide: bool
    var mutedByApp: bool
    var originalMutedState: bool
    var savedVolume: Option<real>
    /** `win32gui` together with `self.volume`. */
    const port: Port

    ghost function State(): World
      reads this, port
    {
      World(hiddenWindows, AudioState(mutedByApp, originalMutedState, savedVolume), port.DeviceState(), port.log)
    }

    constructor (port: Port, muteAfterHide: bool)
      ensures this.port == port && this.muteAfterHide == muteAfterHide
      ensures hiddenWindows == map[]
      ensures AudioState(mutedByApp, originalMutedState, savedVolume) == InitialAudio
    {
      this.port := port;
      this.muteAfterHide := muteAfterHide;
      hiddenWindows := map[];
      mutedByApp, originalMutedState, savedVolume := false, false, None;
    }

    method MuteSystemIfNeeded(f: Faults)
      modifies this, port
      ensures muteAfterHide == old(muteAfterHide)
      ensures State() == MuteIfNeeded(old(State()), muteAfterHide, port.hasEndpoint, f)
    {
      if !muteAfterHide || !port.hasEndpoint {
        return;
      }
      if !mutedByApp {
        var current := port.GetMute(f.getMute);
        if current.None? {
          return;
        }
        originalMutedState := current.value;
        savedVolume := port.GetMasterVolumeLevelScalar(f.getLevel);
        if !originalMutedState {
          var ok := port.SetMute(true, f.setMute);
          if !ok {
            return;
          }
          mutedByApp := true;
        }
      }
    }

    method RestoreSystemAudioIfNeeded(f: Faults)
      modifies this, port
      ensures muteAfterHide == old(muteAfterHide)
      ensures State() == RestoreIfNeeded(old(State()), port.hasEndpoint, f)
    {
      if !port.hasEndpoint {
        return;
      }
      if mutedByApp {
        var ok := port.SetMute(originalMutedState, f.setMute);
        if !ok {
          return;
        }
        if savedVolume.Some? {
          var _ := port.SetMasterVolumeLevelScalar(savedVolume.value, f.setLevel);
        }
        mutedByApp := false;
      }
    }

    /** `toggle_window` for the current listbox selection. */
    method ToggleWindow(selection: Option<Selection>, f: Faults)
      modifies this, port
      ensures muteAfterHide == old(muteAfterHide)
      ensures State() == Toggle(old(State()), muteAfterHide, port.hasEndpoint, selection, f)
    {
      if selection.None? {
        return;
      }
      var title, hwnd := selection.value.title, selection.value.hwnd;
      if hwnd in hiddenWindows {
        port.ShowWindow(hwnd, SwRestore);
        hiddenWindows := hiddenWindows - {hwnd};
        if |hiddenWindows| == 0 {
          RestoreSystemAudioIfNeeded(f);
        }
      } else {
        port.ShowWindow(hwnd, SwHide);
        hiddenWindows := hiddenWindows[hwnd := title];
        if |hiddenWindows| == 1 {
          MuteSystemIfNeeded(f);
        }
      }
    }
  }
}
