/** The between-waves countdown. Each frame the UI polls the spawner's wave
    number and active flag, and a fall of the active flag (a wave just
    finished) before the final wave starts the "next wave in ..." display.
    The display's writes are recorded in a log, the one-second waits are not
    modelled, and a started display runs to its end. */
module WaveTransition {
  import opened Common
  import opened Scene
  import Countdown

  /** The display's length setting, a float in seconds; the loop starts from
      its truncation to int. */
  const CountdownDuration: real := 5.0

  /** One write to the countdown panel or its text. */
  datatype UiWrite = PanelShown | Text(secondsLeft: int) | PanelHidden

  /** The text writes for counts `ticks`, in order. */
  function TextWrites(ticks: seq<int>): (r: seq<UiWrite>)
    ensures |r| == |ticks|
    ensures forall i :: 0 <= i < |ticks| ==> r[i] == Text(ticks[i])
  {
    if ticks == [] then [] else [Text(ticks[0])] + TextWrites(ticks[1..])
  }

  /** The writes of one ShowWaveTransition: the panel is shown, the text
      counts the duration down to 1, and the panel is hidden. The wave
      number the display is for does not appear in them. */
  function TransitionWrites(): (r: seq<UiWrite>)
    ensures r == [PanelShown, Text(5), Text(4), Text(3), Text(2), Text(1), PanelHidden]
  {
    [PanelShown] + TextWrites(Countdown.Ticks(Countdown.TruncateToInt(CountdownDuration))) + [PanelHidden]
  }

  /** What the UI remembers between frames. */
  datatype Tracker = Tracker(lastWave: int, lastActive: bool, countdownShown: bool)

  /** One monitoring step against the spawner's current state `o`: the new
      memory and the wave a countdown is started for, if any. */
  function Observe(t: Tracker, o: SpawnerView): (r: (Tracker, Option<int>))
    ensures r.0.lastWave == o.wave && r.0.lastActive == o.active
    ensures r.1.Some? <==> t.lastActive && !o.active && o.wave < FinalWave
    ensures r.1.Some? ==> r.1.value == o.wave + 1
    ensures o.wave > t.lastWave ==> !r.0.countdownShown
    ensures o.wave <= t.lastWave && r.1.Some? ==> r.0.countdownShown
    ensures o.wave <= t.lastWave && r.1.None? ==> r.0.countdownShown == t.countdownShown
  {
    var finished := t.lastActive && !o.active;
    var countdown := if finished && o.wave < FinalWave then Some(o.wave + 1) else None;
    var shown := if countdown.Some? then true else t.countdownShown;
    var shown' := if o.wave > t.lastWave then false else shown;
    (Tracker(o.wave, o.active, shown'), countdown)
  }

  /** Monitoring steps over successive observations: the final memory and
      the waves countdowns were started for, in order. */
  function Monitor(t: Tracker, obs: seq<SpawnerView>): (Tracker, seq<int>)
    decreases |obs|
  {
    if obs == [] then (t, [])
    else
      var (t', c) := Observe(t, obs[0]);
      var (last, rest) := Monitor(t', obs[1..]);
      (last, (if c.Some? then [c.value] else []) + rest)
  }

  /** Whether observation `i` ends a wave before the final one, given the
      active flag seen before the first observation. */
  predicate FinishedAt(prevActive: bool, obs: seq<SpawnerView>, i: nat)
    requires i < |obs|
  {
    (if i == 0 then prevActive else obs[i - 1].active) && !obs[i].active && obs[i].wave < FinalWave
  }

  /** The countdowns the observations call for, read off the observations
      alone: one for the next wave at each falling edge of the active flag
      before the final wave. */
  function Edges(prevActive: bool, obs: seq<SpawnerView>, from: nat): seq<int>
    requires from <= |obs|
    decreases |obs| - from
  {
    if from == |obs| then []
    else (if FinishedAt(prevActive, obs, from) then [obs[from].wave + 1] else []) + Edges(prevActive, obs, from + 1)
  }

  /** Dropping the first observation shifts the edges by one. */
  lemma {:induction false} EdgesShift(prevActive: bool, obs: seq<SpawnerView>)
    requires |obs| > 0
    ensures Edges(prevActive, obs, 1) == Edges(obs[0].active, obs[1..], 0)
  {
    EdgesShiftFrom(prevActive, obs, 1);
  }

  lemma {:induction false} EdgesShiftFrom(prevActive: bool, obs: seq<SpawnerView>, from: nat)
    requires 0 < from <= |obs|
    ensures Edges(prevActive, obs, from) == Edges(obs[0].active, obs[1..], from - 1)
    decreases |obs| - from
  {
    if from < |obs| {
      EdgesShiftFrom(prevActive, obs, from + 1);
      assert FinishedAt(prevActive, obs, from) == FinishedAt(obs[0].active, obs[1..], from - 1);
    }
  }

  /** The UI starts exactly the countdowns the falling edges call for, and
      ends remembering the last observation. */
  lemma {:induction false} MonitorStartsCountdownsAtEdges(t: Tracker, obs: seq<SpawnerView>)
    ensures Monitor(t, obs).1 == Edges(t.lastActive, obs, 0)
    ensures |obs| > 0 ==>
      Monitor(t, obs).0.lastWave == obs[|obs| - 1].wave &&
      Monitor(t, obs).0.lastActive == obs[|obs| - 1].active
    decreases |obs|
  {
    if obs != [] {
      var (t', c) := Observe(t, obs[0]);
      MonitorStartsCountdownsAtEdges(t', obs[1..]);
      EdgesShift(t.lastActive, obs);
      assert c.Some? <==> FinishedAt(t.lastActive, obs, 0);
    }
  }

  class WaveTransitionUI {
    var enabled: bool
    /** Whether the UI holds a live spawner reference. */
    var spawnerFound: bool
    var lastObservedWave: int
    var lastWaveActiveState: bool
    var countdownShown: bool
    var panelVisible: bool
    /** Every write to the panel and its text, in order. */
    var log: seq<UiWrite>

    function Memory(): Tracker
      reads this
    {
      Tracker(lastObservedWave, lastWaveActiveState, countdownShown)
    }

    /** The component as the scene creates it; the panel's visibility is
        whatever the scene gave it. */
    constructor (panelVisibleInScene: bool)
      ensures enabled && !spawnerFound && Memory() == Tracker(0, false, false)
      ensures panelVisible == panelVisibleInScene && log == []
    {
      enabled := true;
      spawnerFound := false;
      lastObservedWave := 0;
      lastWaveActiveState := false;
      countdownShown := false;
      panelVisible := panelVisibleInScene;
      log := [];
    }

    /** Disables the component when the panel or the text is not assigned;
        otherwise hides the panel. */
    method Start(panelAssigned: bool, textAssigned: bool)
      modifies this
      ensures !panelAssigned || !textAssigned ==>
        !enabled && panelVisible == old(panelVisible) && log == old(log)
      ensures panelAssigned && textAssigned ==>
        enabled == old(enabled) && !panelVisible && log == old(log) + [PanelHidden]
      ensures spawnerFound == old(spawnerFound) && Memory() == old(Memory())
    {
      if !panelAssigned {
        enabled := false;
        return;
      }
      if !textAssigned {
        enabled := false;
        return;
      }
      panelVisible := false;
      log := log + [PanelHidden];
    }

    /** One frame. `spawner` is the scene's spawner, None when there is none
        (or the held one has been destroyed). Without a live reference the
        frame only looks the spawner up and seeds the memory from it;
        otherwise it is a monitoring step, which may run a countdown. */
    method Update(spawner: Option<SpawnerView>)
      modifies this
      ensures !old(enabled) ==> unchanged(this)
      ensures old(enabled) && (!old(spawnerFound) || spawner.None?) ==>
        && spawnerFound == spawner.Some?
        && (spawner.Some? ==> lastObservedWave == spawner.value.wave && lastWaveActiveState == spawner.value.active)
        && (spawner.None? ==> lastObservedWave == old(lastObservedWave) && lastWaveActiveState == old(lastWaveActiveState))
        && countdownShown == old(countdownShown)
        && log == old(log) && panelVisible == old(panelVisible)
      ensures old(enabled) && old(spawnerFound) && spawner.Some? ==>
        && spawnerFound
        && Memory() == Observe(old(Memory()), spawner.value).0
        && log == old(log) + (if Observe(old(Memory()), spawner.value).1.Some? then TransitionWrites() else [])
        && panelVisible == (if Observe(old(Memory()), spawner.value).1.Some? then false else old(panelVisible))
      ensures enabled == old(enabled)
    {
      if !enabled {
        return;
      }
      if !spawnerFound || spawner.None? {
        spawnerFound := spawner.Some?;
        if spawner.Some? {
          lastObservedWave := spawner.value.wave;
          lastWaveActiveState := spawner.value.active;
        }
        return;
      }
      var currentWave := spawner.value.wave;
      var currentWaveActive := spawner.value.active;
      if lastWaveActiveState && !currentWaveActive {
        if currentWave < FinalWave {
          ShowWaveTransition(currentWave + 1);
          countdownShown := true;
        }
      }
      if currentWave > lastObservedWave {
        countdownShown := false;
      }
      lastObservedWave := currentWave;
      lastWaveActiveState := currentWaveActive;
    }

    /** The display: show the panel, count the text down from the duration
        to 1, one a second, and hide the panel. `nextWave` is only logged. */
    method ShowWaveTransition(nextWave: int)
      modifies this
      ensures log == old(log) + TransitionWrites() && !panelVisible
      ensures enabled == old(enabled) && spawnerFound == old(spawnerFound) && Memory() == old(Memory())
    {
      panelVisible := true;
      log := log + [PanelShown];
      var start := Countdown.TruncateToInt(CountdownDuration);
      var i := start;
      while i > 0
        invariant 0 <= i <= start
        invariant log == old(log) + [PanelShown] + TextWrites(Countdown.Ticks(start)[..start - i])
        invariant enabled == old(enabled) && spawnerFound == old(spawnerFound) && Memory() == old(Memory())
      {
        log := log + [Text(i)];
        assert Countdown.Ticks(start)[..start - (i - 1)] == Countdown.Ticks(start)[..start - i] + [i];
        TextWritesAppend(Countdown.Ticks(start)[..start - i], i);
        i := i - 1;
      }
      assert Countdown.Ticks(start)[..start] == Countdown.Ticks(start);
      panelVisible := false;
      log := log + [PanelHidden];
    }

    /** Starts the display by hand. */
    method TriggerCountdown(nextWaveNumber: int)
      modifies this
      ensures log == old(log) + TransitionWrites() && !panelVisible
      ensures enabled == old(enabled) && spawnerFound == old(spawnerFound) && Memory() == old(Memory())
    {
      ShowWaveTransition(nextWaveNumber);
    }
  }

  lemma TextWritesAppend(ticks: seq<int>, n: int)
    ensures TextWrites(ticks + [n]) == TextWrites(ticks) + [Text(n)]
  {
    assert forall i :: 0 <= i < |ticks| + 1 ==> TextWrites(ticks + [n])[i] == (TextWrites(ticks) + [Text(n)])[i];
  }
}
