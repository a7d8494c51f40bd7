/**
 * The single-active-audio rule of `MusicApp.togglePlay` and the `ended` handler of each
 * song card. Widget i is the i-th rendered `<audio>` element; `paused[i]` is its `paused`
 * flag and `current` is `this.currentAudio` (`null` is `None`).
 */
module Playback {
  import opened Wrappers

  datatype PlayState = PlayState(paused: seq<bool>, current: Option<nat>)

  /** `currentAudio`, when set, names a rendered widget. */
  predicate InRange(st: PlayState) {
    st.current.Some? ==> st.current.value < |st.paused|
  }

  /** The invariant: every widget that is playing is `currentAudio`. */
  predicate Exclusive(st: PlayState) {
    forall i :: 0 <= i < |st.paused| && !st.paused[i] ==> st.current == Some(i)
  }

  predicate WellFormed(st: PlayState) {
    InRange(st) && Exclusive(st)
  }

  /** `togglePlay(audio)` on widget `t`: a different current widget is paused first; then a
      paused target starts and becomes current, a playing target stops and `current` is cleared.
      From a state that keeps the invariant, the target flips, it is current exactly when it
      starts, every other widget ends up paused, and the invariant still holds. */
  function Toggle(st: PlayState, t: nat): (r: PlayState)
    requires InRange(st) && t < |st.paused|
    ensures InRange(r) && |r.paused| == |st.paused|
    ensures st.current.Some? && st.current.value != t ==> r.paused[st.current.value]
    ensures Exclusive(st) ==> Exclusive(r)
    ensures Exclusive(st) ==> r.paused[t] == !st.paused[t]
    ensures Exclusive(st) ==> r.current == (if st.paused[t] then Some(t) else None)
    ensures Exclusive(st) ==> forall i :: 0 <= i < |st.paused| && i != t ==> r.paused[i]
  {
    var p := if st.current.Some? && st.current.value != t
             then st.paused[st.current.value := true] else st.paused;
    if p[t] then PlayState(p[t := false], Some(t))
    else PlayState(p[t := true], None)
  }

  /** The `ended` event of widget `i`: the media element sets its own `paused` flag; the
      handler only swaps the icon and leaves `currentAudio` as it was. So it only pauses:
      it keeps the invariant and changes no other widget. */
  function AfterEnded(st: PlayState, i: nat): (r: PlayState)
    requires i < |st.paused|
    ensures |r.paused| == |st.paused| && r.current == st.current && r.paused[i]
    ensures forall j :: 0 <= j < |st.paused| && j != i ==> r.paused[j] == st.paused[j]
    ensures WellFormed(st) ==> WellFormed(r)
  {
    PlayState(st.paused[i := true], st.current)
  }

  /** The number of widgets that are playing. */
  function PlayingCount(paused: seq<bool>): (n: nat)
    ensures n <= |paused|
    ensures n == 0 <==> forall i :: 0 <= i < |paused| ==> paused[i]
  {
    if paused == [] then 0
    else PlayingCount(paused[..|paused| - 1]) + (if paused[|paused| - 1] then 0 else 1)
  }

  /** When only widget `k` may play, at most one plays. */
  lemma {:induction false} AtMostOneWhenOnlyK(paused: seq<bool>, k: int)
    requires forall i :: 0 <= i < |paused| && !paused[i] ==> i == k
    ensures PlayingCount(paused) <= 1
    ensures !(0 <= k < |paused|) ==> PlayingCount(paused) == 0
  {
    if paused != [] {
      var front := paused[..|paused| - 1];
      assert forall i :: 0 <= i < |front| && !front[i] ==> i == k by {
        forall i | 0 <= i < |front| && !front[i] ensures i == k {
          assert paused[i] == front[i];
        }
      }
      AtMostOneWhenOnlyK(front, k);
    }
  }

  /** The invariant means at most one widget is playing. */
  lemma AtMostOnePlaying(st: PlayState)
    requires Exclusive(st)
    ensures PlayingCount(st.paused) <= 1
  {
    AtMostOneWhenOnlyK(st.paused, if st.current.Some? then st.current.value else -1);
  }

  /** The events the page reacts to: a click on a play button, or the end of a track. */
  datatype Event = Click(widget: nat) | Finish(widget: nat)

  /** Applies a run of events from left to right; events for widgets that are not rendered are skipped. */
  function Run(st: PlayState, events: seq<Event>): (r: PlayState)
    requires InRange(st)
    ensures InRange(r) && |r.paused| == |st.paused|
    decreases |events|
  {
    if events == [] then st
    else
      var e := events[0];
      var next := if e.widget >= |st.paused| then st
                  else if e.Click? then Toggle(st, e.widget) else AfterEnded(st, e.widget);
      Run(next, events[1..])
  }

  /** From any valid state, and so from page load with every widget paused, no run of clicks
      and track ends ever has two widgets playing. */
  lemma {:induction false} RunKeepsOnePlaying(st: PlayState, events: seq<Event>)
    requires WellFormed(st)
    ensures WellFormed(Run(st, events))
    ensures PlayingCount(Run(st, events).paused) <= 1
    decreases |events|
  {
    if events == [] {
      AtMostOnePlaying(st);
    } else {
      var e := events[0];
      RunKeepsOnePlaying(if e.widget >= |st.paused| then st
                         else if e.Click? then Toggle(st, e.widget) else AfterEnded(st, e.widget), events[1..]);
    }
  }

  /** The audio widgets of the rendered cards and `MusicApp.currentAudio`. */
  class Player {
    var paused: array<bool>
    var current: Option<nat>

    function State(): PlayState
      reads this, paused
    {
      PlayState(paused[..], current)
    }

    predicate Valid()
      reads this, paused
    {
      WellFormed(State())
    }

    /** `n` freshly rendered widgets, none playing, `currentAudio` null. */
    constructor (n: nat)
      ensures Valid() && fresh(paused) && paused.Length == n
      ensures forall i :: 0 <= i < n ==> paused[i]
      ensures current == None
    {
      paused := new bool[n](_ => true);
      current := None;
    }

    /** `togglePlay` for widget `t`, in the order the source performs it. */
    method TogglePlay(t: nat)
      requires Valid() && t < paused.Length
      modifies this, paused
      ensures paused == old(paused)
      ensures State() == Toggle(old(State()), t)
      ensures Valid()
    {
      if current.Some? && current.value != t {
        paused[current.value] := true;
      }
      if paused[t] {
        paused[t] := false;
        current := Some(t);
      } else {
        paused[t] := true;
        current := None;
      }
    }

    /** The `ended` event of widget `i`. */
    method Ended(i: nat)
      requires Valid() && i < paused.Length
      modifies paused
      ensures State() == AfterEnded(old(State()), i)
      ensures Valid()
    {
      paused[i] := true;
    }
  }
}
