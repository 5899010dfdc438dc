/**
 * Properties of whole sequences of serialised `toggle_window` calls on the
 * skihide/app.py controller: every hidden episode ends with the endpoint
 * as it was before the episode began, membership flips once per toggle of
 * a handle, and a user's own mute is never touched.
 */
module Episodes {
  import opened Wrappers
  import opened Ports
  import opened Controller

  /**
   * One `toggle_window` call as delivered by a hotkey, a mouse side button
   * or the UI: the selection, the `mute_after_hide` setting in force (it can
   * change between calls through the settings dialog) and the endpoint calls
   * that raise during it.
   */
  datatype Trigger = Trigger(selection: Option<Selection>, muteAfterHide: bool, faults: Faults)

  /** The controller after the triggers, applied one at a time. */
  function Run(w: World, hasEndpoint: bool, ts: seq<Trigger>): (r: World)
    ensures w.log <= r.log
    decreases |ts|
  {
    if ts == [] then w
    else Run(Toggle(w, ts[0].muteAfterHide, hasEndpoint, ts[0].selection, ts[0].faults), hasEndpoint, ts[1..])
  }

  /** The handles the triggers select, counted with multiplicity. */
  function Picked(ts: seq<Trigger>): multiset<Handle> {
    if ts == [] then multiset{}
    else PickedBy(ts[0]) + Picked(ts[1..])
  }

  predicate Odd(n: nat) { n % 2 == 1 }

  /** The handles one trigger selects. */
  function PickedBy(t: Trigger): multiset<Handle> {
    if t.selection.Some? then multiset{t.selection.value.hwnd} else multiset{}
  }

  /** The hidden-window map after one trigger. */
  function ToggleHidden(hidden: map<Handle, Title>, t: Trigger): map<Handle, Title> {
    match t.selection
    case None => hidden
    case Some(s) => if s.hwnd in hidden then hidden - {s.hwnd} else hidden[s.hwnd := s.title]
  }

  /** The hidden-window map after the triggers: only the selections matter. */
  function HiddenAfter(hidden: map<Handle, Title>, ts: seq<Trigger>): map<Handle, Title>
    decreases |ts|
  {
    if ts == [] then hidden else HiddenAfter(ToggleHidden(hidden, ts[0]), ts[1..])
  }

  /** One trigger flips the membership of the handle it selects and of no other. */
  lemma ToggleHiddenFlips(hidden: map<Handle, Title>, t: Trigger, h: Handle)
    ensures h in ToggleHidden(hidden, t) <==> ((h in hidden) != Odd(PickedBy(t)[h]))
  {
  }

  /** The audio routines never change the hidden-window map. */
  lemma {:induction false} RunHidden(w: World, hasEndpoint: bool, ts: seq<Trigger>)
    ensures Run(w, hasEndpoint, ts).hidden == HiddenAfter(w.hidden, ts)
    decreases |ts|
  {
    if ts != [] {
      var w1 := Toggle(w, ts[0].muteAfterHide, hasEndpoint, ts[0].selection, ts[0].faults);
      RunHidden(w1, hasEndpoint, ts[1..]);
    }
  }

  lemma OddSum(a: nat, b: nat)
    ensures Odd(a + b) <==> (Odd(a) != Odd(b))
  {
  }

  lemma {:induction false} HiddenAfterMembership(hidden: map<Handle, Title>, ts: seq<Trigger>, h: Handle)
    ensures h in HiddenAfter(hidden, ts) <==> ((h in hidden) != Odd(Picked(ts)[h]))
    decreases |ts|
  {
    if ts != [] {
      var next := ToggleHidden(hidden, ts[0]);
      ToggleHiddenFlips(hidden, ts[0], h);
      HiddenAfterMembership(next, ts[1..], h);
      assert Picked(ts)[h] == PickedBy(ts[0])[h] + Picked(ts[1..])[h];
      OddSum(PickedBy(ts[0])[h], Picked(ts[1..])[h]);
    }
  }

  /** A handle is hidden after a run iff it was hidden before, flipped once per toggle of it. */
  lemma RunMembership(w: World, hasEndpoint: bool, ts: seq<Trigger>, h: Handle)
    ensures h in Run(w, hasEndpoint, ts).hidden <==> ((h in w.hidden) != Odd(Picked(ts)[h]))
  {
    RunHidden(w, hasEndpoint, ts);
    HiddenAfterMembership(w.hidden, ts, h);
  }

  /** Toggling every handle an even number of times leaves the same handles hidden. */
  lemma EvenTogglesKeepHidden(w: World, hasEndpoint: bool, ts: seq<Trigger>)
    requires forall h :: !Odd(Picked(ts)[h])
    ensures Run(w, hasEndpoint, ts).hidden.Keys == w.hidden.Keys
  {
    var r := Run(w, hasEndpoint, ts);
    forall h ensures h in r.hidden <==> h in w.hidden {
      RunMembership(w, hasEndpoint, ts, h);
    }
  }

  /** The calls issued over a run split into those of the first toggle and those of the rest. */
  lemma IssuedSplit(w: World, w1: World, r: World)
    requires w.log <= w1.log <= r.log
    ensures Issued(w.log, r.log) == Issued(w.log, w1.log) + Issued(w1.log, r.log)
  {
  }

  /**
   * The endpoint is in the state it had before the current episode (`d0`)
   * unless the application owns a mute, in which case it differs only by
   * that mute and the snapshot records `d0`; outside an episode the
   * application owns nothing.
   */
  ghost predicate Settled(w: World, hasEndpoint: bool, d0: Device) {
    && (w.audio.mutedByApp ==>
          && hasEndpoint && !d0.muted && !w.audio.originalMuted
          && w.audio.savedVolume == Some(d0.level) && w.device == d0.(muted := true))
    && (!w.audio.mutedByApp ==> w.device == d0)
    && (w.hidden == map[] ==> !w.audio.mutedByApp)
  }

  predicate FaultFree(ts: seq<Trigger>) {
    forall i :: 0 <= i < |ts| ==> ts[i].faults == NoFaults
  }

  lemma ToggleSettled(w: World, muteAfterHide: bool, hasEndpoint: bool, selection: Option<Selection>, d0: Device)
    requires Settled(w, hasEndpoint, d0)
    ensures Settled(Toggle(w, muteAfterHide, hasEndpoint, selection, NoFaults), hasEndpoint, d0)
  {
    if selection.Some? {
      var h := selection.value.hwnd;
      MapSizes(w.hidden, h, selection.value.title);
      if Boundary(w, h) {
        ToggleAtBoundary(w, muteAfterHide, hasEndpoint, selection.value, NoFaults);
      }
      if h in w.hidden && w.hidden.Keys != {h} {
        assert (w.hidden - {h}).Keys == w.hidden.Keys - {h} != {};
      }
    }
  }

  /** Fault-free runs keep the endpoint settled with respect to the state before the first episode. */
  lemma {:induction false} RunSettled(w: World, hasEndpoint: bool, ts: seq<Trigger>, d0: Device)
    requires Settled(w, hasEndpoint, d0) && FaultFree(ts)
    ensures Settled(Run(w, hasEndpoint, ts), hasEndpoint, d0)
    decreases |ts|
  {
    if ts != [] {
      ToggleSettled(w, ts[0].muteAfterHide, hasEndpoint, ts[0].selection, d0);
      var w1 := Toggle(w, ts[0].muteAfterHide, hasEndpoint, ts[0].selection, ts[0].faults);
      assert FaultFree(ts[1..]) by {
        forall i | 0 <= i < |ts[1..]| ensures ts[1..][i].faults == NoFaults {
          assert ts[1..][i] == ts[i + 1];
        }
      }
      RunSettled(w1, hasEndpoint, ts[1..], d0);
    }
  }

  /**
   * Whatever the interleaving of hides and shows, once no window is hidden
   * the endpoint is back to its mute flag and volume from before, and the
   * application owns no mute.
   */
  lemma EpisodesRestoreDevice(w: World, hasEndpoint: bool, ts: seq<Trigger>)
    requires w.hidden == map[] && !w.audio.mutedByApp && FaultFree(ts)
    requires Run(w, hasEndpoint, ts).hidden == map[]
    ensures Run(w, hasEndpoint, ts).device == w.device
    ensures !Run(w, hasEndpoint, ts).audio.mutedByApp
  {
    RunSettled(w, hasEndpoint, ts, w.device);
  }

  /** One fault-free trigger per selection. */
  function Triggers(sels: seq<Selection>, muteAfterHide: bool): (ts: seq<Trigger>)
    ensures |ts| == |sels|
    ensures forall i :: 0 <= i < |sels| ==> ts[i] == Trigger(Some(sels[i]), muteAfterHide, NoFaults)
  {
    seq(|sels|, i requires 0 <= i < |sels| => Trigger(Some(sels[i]), muteAfterHide, NoFaults))
  }

  function Handles(sels: seq<Selection>): (hs: seq<Handle>)
    ensures |hs| == |sels|
    ensures forall i :: 0 <= i < |sels| ==> hs[i] == sels[i].hwnd
  {
    seq(|sels|, i requires 0 <= i < |sels| => sels[i].hwnd)
  }

  lemma {:induction false} PickedAppend(a: seq<Trigger>, b: seq<Trigger>)
    ensures Picked(a + b) == Picked(a) + Picked(b)
    decreases |a|
  {
    if a == [] {
      assert a + b == b;
    } else {
      assert (a + b)[0] == a[0] && (a + b)[1..] == a[1..] + b;
      PickedAppend(a[1..], b);
    }
  }

  lemma {:induction false} PickedTriggers(sels: seq<Selection>, muteAfterHide: bool)
    ensures Picked(Triggers(sels, muteAfterHide)) == multiset(Handles(sels))
    decreases |sels|
  {
    if sels != [] {
      assert Triggers(sels, muteAfterHide)[1..] == Triggers(sels[1..], muteAfterHide);
      assert Handles(sels) == [sels[0].hwnd] + Handles(sels[1..]);
      PickedTriggers(sels[1..], muteAfterHide);
    }
  }

  predicate Distinct(hs: seq<Handle>) {
    forall i, j :: 0 <= i < j < |hs| ==> hs[i] != hs[j]
  }

  lemma {:induction false} DistinctCount(hs: seq<Handle>, h: Handle)
    requires Distinct(hs)
    ensures multiset(hs)[h] <= 1
    decreases |hs|
  {
    if hs != [] {
      assert hs == [hs[0]] + hs[1..];
      assert Distinct(hs[1..]) by {
        forall i, j | 0 <= i < j < |hs[1..]| ensures hs[1..][i] != hs[1..][j] {
          assert hs[1..][i] == hs[i + 1] && hs[1..][j] == hs[j + 1];
        }
      }
      DistinctCount(hs[1..], h);
      if hs[0] == h {
        assert h !in hs[1..] by {
          forall k | 0 <= k < |hs[1..]| ensures hs[1..][k] != h {
            assert hs[1..][k] == hs[k + 1];
          }
        }
      }
    }
  }

  /**
   * Hiding N distinct windows and then showing all N again, in any order,
   * leaves nothing hidden and the endpoint exactly as it was.
   */
  lemma HideAllThenShowAll(w: World, hasEndpoint: bool, muteAfterHide: bool,
                           hides: seq<Selection>, shows: seq<Selection>)
    requires w.hidden == map[] && !w.audio.mutedByApp
    requires Distinct(Handles(hides))
    requires multiset(Handles(shows)) == multiset(Handles(hides))
    ensures var r := Run(w, hasEndpoint, Triggers(hides, muteAfterHide) + Triggers(shows, muteAfterHide));
      r.hidden == map[] && r.device == w.device && !r.audio.mutedByApp
  {
    var ts := Triggers(hides, muteAfterHide) + Triggers(shows, muteAfterHide);
    HidesThenShowsAreEven(hides, shows, muteAfterHide);
    EvenTogglesKeepHidden(w, hasEndpoint, ts);
    assert FaultFree(ts);
    EpisodesRestoreDevice(w, hasEndpoint, ts);
  }

  /** Each distinct handle is picked once among the hides and once among the shows. */
  lemma HidesThenShowsAreEven(hides: seq<Selection>, shows: seq<Selection>, muteAfterHide: bool)
    requires Distinct(Handles(hides))
    requires multiset(Handles(shows)) == multiset(Handles(hides))
    ensures var ts := Triggers(hides, muteAfterHide) + Triggers(shows, muteAfterHide);
      forall h :: !Odd(Picked(ts)[h])
  {
    var ts := Triggers(hides, muteAfterHide) + Triggers(shows, muteAfterHide);
    var m := multiset(Handles(hides));
    assert Picked(ts) == m + m by {
      PickedAppend(Triggers(hides, muteAfterHide), Triggers(shows, muteAfterHide));
      PickedTriggers(hides, muteAfterHide);
      PickedTriggers(shows, muteAfterHide);
    }
    forall h ensures !Odd(Picked(ts)[h]) {
      DistinctCount(Handles(hides), h);
    }
  }

  /**
   * A user who muted before hiding keeps the mute: no `SetMute` is ever
   * issued and the application never takes ownership, whatever raises.
   */
  lemma {:induction false} UserMuteNeverTouched(w: World, hasEndpoint: bool, ts: seq<Trigger>)
    requires w.device.muted && !w.audio.mutedByApp
    ensures var r := Run(w, hasEndpoint, ts);
      NoSetMute(Issued(w.log, r.log)) && r.device == w.device && !r.audio.mutedByApp
    decreases |ts|
  {
    if ts != [] {
      var w1 := Toggle(w, ts[0].muteAfterHide, hasEndpoint, ts[0].selection, ts[0].faults);
      var r := Run(w1, hasEndpoint, ts[1..]);
      assert NoSetMute(Issued(w.log, w1.log)) by {
        forall i | 0 <= i < |Issued(w.log, w1.log)| ensures !Issued(w.log, w1.log)[i].SetMute? {
          var c := Issued(w.log, w1.log)[i];
          if ts[0].selection.Some? && Boundary(w, ts[0].selection.value.hwnd) {
            var s := ts[0].selection.value;
            ToggleAtBoundary(w, ts[0].muteAfterHide, hasEndpoint, s, ts[0].faults);
            IssuedSplit(w, AfterWindowCall(w, s), w1);
          }
        }
      }
      UserMuteNeverTouched(w1, hasEndpoint, ts[1..]);
      IssuedSplit(w, w1, r);
    }
  }

  predicate SettingOff(ts: seq<Trigger>) {
    forall i :: 0 <= i < |ts| ==> !ts[i].muteAfterHide
  }

  /** With `mute_after_hide` off throughout, no endpoint call is ever issued. */
  lemma {:induction false} SettingOffNoAudio(w: World, hasEndpoint: bool, ts: seq<Trigger>)
    requires !w.audio.mutedByApp && SettingOff(ts)
    ensures var r := Run(w, hasEndpoint, ts);
      NoAudioCalls(Issued(w.log, r.log)) && r.device == w.device && r.audio == w.audio
    decreases |ts|
  {
    if ts != [] {
      var w1 := Toggle(w, ts[0].muteAfterHide, hasEndpoint, ts[0].selection, ts[0].faults);
      var r := Run(w1, hasEndpoint, ts[1..]);
      assert SettingOff(ts[1..]) by {
        forall i | 0 <= i < |ts[1..]| ensures !ts[1..][i].muteAfterHide {
          assert ts[1..][i] == ts[i + 1];
        }
      }
      SettingOffNoAudio(w1, hasEndpoint, ts[1..]);
      IssuedSplit(w, w1, r);
    }
  }

  /** Without an endpoint, no endpoint call is ever issued, in any state. */
  lemma {:induction false} NoEndpointNoAudio(w: World, ts: seq<Trigger>)
    ensures var r := Run(w, false, ts);
      NoAudioCalls(Issued(w.log, r.log)) && r.device == w.device && r.audio == w.audio
    decreases |ts|
  {
    if ts != [] {
      var w1 := Toggle(w, ts[0].muteAfterHide, false, ts[0].selection, ts[0].faults);
      var r := Run(w1, false, ts[1..]);
      NoEndpointNoAudio(w1, ts[1..]);
      IssuedSplit(w, w1, r);
    }
  }
}

module Scenarios {
  import opened Wrappers
  import opened Ports
  import opened Controller

  /** Hide `a`, hide `b`, show `a`, show `b`, with `mute_after_hide` on and nothing raising. */
  function TwoWindowEpisode(w: World, a: Selection, b: Selection): World {
    var w1 := Toggle(w, true, true, Some(a), NoFaults);
    var w2 := Toggle(w1, true, true, Some(b), NoFaults);
    var w3 := Toggle(w2, true, true, Some(a), NoFaults);
    Toggle(w3, true, true, Some(b), NoFaults)
  }

  /**
   * On an unmuted endpoint: one mute at the first hide, no audio call in
   * between, and after the last show the mute is lifted and the volume
   * reapplied, so the endpoint ends as it began.
   */
  lemma TwoWindowEpisodeRestoresAudio(w: World, a: Selection, b: Selection)
    requires w.hidden == map[] && w.audio == InitialAudio && a.hwnd != b.hwnd
    requires !w.device.muted
    ensures var r := TwoWindowEpisode(w, a, b);
      && r.hidden == map[] && r.device == w.device && !r.audio.mutedByApp
      && Issued(w.log, r.log) == [ShowWindow(a.hwnd, SwHide), GetMute, GetMasterVolumeLevelScalar, SetMute(true),
                            ShowWindow(b.hwnd, SwHide), ShowWindow(a.hwnd, SwRestore),
                            ShowWindow(b.hwnd, SwRestore), SetMute(false),
                            SetMasterVolumeLevelScalar(w.device.level)]
  {
    var w1 := Toggle(w, true, true, Some(a), NoFaults);
    FirstHideMutes(w, a);
    var w3 := MiddleOfEpisode(w1, a, b);
    var w4 := Toggle(w3, true, true, Some(b), NoFaults);
    LastShowRestores(w3, b);
    assert TwoWindowEpisode(w, a, b) == w4;
    assert w4.log == w.log + Issued(w.log, w1.log) + Issued(w1.log, w3.log) + Issued(w3.log, w4.log);
  }

  /** Hide `b` then show `a` while `a` alone is hidden: two window calls and nothing else. */
  lemma MiddleOfEpisode(w1: World, a: Selection, b: Selection) returns (w3: World)
    requires w1.hidden == map[a.hwnd := a.title] && a.hwnd != b.hwnd
    ensures w3 == Toggle(Toggle(w1, true, true, Some(b), NoFaults), true, true, Some(a), NoFaults)
    ensures w3.hidden == map[b.hwnd := b.title] && w3.audio == w1.audio && w3.device == w1.device
    ensures Issued(w1.log, w3.log) == [ShowWindow(b.hwnd, SwHide), ShowWindow(a.hwnd, SwRestore)]
  {
    var w2 := Toggle(w1, true, true, Some(b), NoFaults);
    assert w1.hidden.Keys == {a.hwnd};
    w3 := Toggle(w2, true, true, Some(a), NoFaults);
    assert w2.hidden.Keys == {a.hwnd, b.hwnd};
    assert !Boundary(w2, a.hwnd) by {
      assert b.hwnd in w2.hidden.Keys;
    }
    assert w3.hidden == map[b.hwnd := b.title];
    assert w3.log == w1.log + Issued(w1.log, w2.log) + Issued(w2.log, w3.log);
  }

  lemma FirstHideMutes(w: World, a: Selection)
    requires w.hidden == map[] && w.audio == InitialAudio && !w.device.muted
    ensures var r := Toggle(w, true, true, Some(a), NoFaults);
      && r.hidden == map[a.hwnd := a.title]
      && r.audio == AudioState(true, false, Some(w.device.level)) && r.device == w.device.(muted := true)
      && Issued(w.log, r.log) == [ShowWindow(a.hwnd, SwHide), GetMute, GetMasterVolumeLevelScalar, SetMute(true)]
  {
    var w0 := AfterWindowCall(w, a);
    var r := Toggle(w, true, true, Some(a), NoFaults);
    ToggleAtBoundary(w, true, true, a, NoFaults);
    assert Issued(w.log, r.log) == [ShowWindow(a.hwnd, SwHide)] + Issued(w0.log, r.log);
  }

  lemma LastShowRestores(w: World, a: Selection)
    requires w.hidden.Keys == {a.hwnd} && w.audio.mutedByApp && !w.audio.originalMuted && w.audio.savedVolume.Some?
    ensures var r := Toggle(w, true, true, Some(a), NoFaults);
      && r.hidden == map[] && !r.audio.mutedByApp
      && r.device == Device(false, w.audio.savedVolume.value)
      && Issued(w.log, r.log) == [ShowWindow(a.hwnd, SwRestore), SetMute(false),
                            SetMasterVolumeLevelScalar(w.audio.savedVolume.value)]
  {
    var r := Toggle(w, true, true, Some(a), NoFaults);
    assert a.hwnd in w.hidden;
    var w0 := AfterWindowCall(w, a);
    ToggleAtBoundary(w, true, true, a, NoFaults);
    assert Issued(w.log, r.log) == [ShowWindow(a.hwnd, SwRestore)] + Issued(w0.log, r.log);
    assert (w.hidden - {a.hwnd}).Keys == {};
  }

  /**
   * A `SetMute(True)` that raises at the first hide still hides the window
   * and leaves `muted_by_app` false, so the restore after the last show
   * issues no endpoint call.
   */
  lemma FailedMuteIsNotUndone(w: World, a: Selection)
    requires w.hidden == map[] && !w.audio.mutedByApp && !w.device.muted
    ensures var w1 := Toggle(w, true, true, Some(a), NoFaults.(setMute := true));
      && w1.hidden == map[a.hwnd := a.title] && !w1.audio.mutedByApp && w1.device == w.device
      && var w2 := Toggle(w1, true, true, Some(a), NoFaults);
         w2.hidden == map[] && w2.device == w.device && Issued(w1.log, w2.log) == [ShowWindow(a.hwnd, SwRestore)]
  {
    var w1 := Toggle(w, true, true, Some(a), NoFaults.(setMute := true));
    ToggleAtBoundary(w, true, true, a, NoFaults.(setMute := true));
    assert w1.hidden.Keys == {a.hwnd};
    ToggleAtBoundary(w1, true, true, a, NoFaults);
  }

  /**
   * A `SetMute` that raises while restoring keeps `muted_by_app` set: the
   * next episode takes no new snapshot and mutes nothing, and its end
   * retries the restore.
   */
  lemma FailedRestoreKeepsOwnership(w: World, a: Selection, f: Faults)
    requires w.hidden == map[a.hwnd := a.title] && w.audio.mutedByApp
    ensures var w1 := Toggle(w, true, true, Some(a), NoFaults.(setMute := true));
      && w1.hidden == map[] && w1.audio == w.audio && w1.device == w.device
      && var w2 := Toggle(w1, true, true, Some(a), f);
         w2.audio == w.audio && w2.device == w.device && Issued(w1.log, w2.log) == [ShowWindow(a.hwnd, SwHide)]
  {
    assert w.hidden.Keys == {a.hwnd};
    ToggleAtBoundary(w, true, true, a, NoFaults.(setMute := true));
    var w1 := Toggle(w, true, true, Some(a), NoFaults.(setMute := true));
    ToggleAtBoundary(w1, true, true, a, f);
  }
}
