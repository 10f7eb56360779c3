/** The on-screen arrow-key indicator (`Movement`): a map from the four arrow
    key names to "currently held", switched by the functional state updaters
    that run on key-down and key-up, and a help overlay toggled by a button.
    The indicator is for display only; it never moves the camera. */
module ArrowIndicator {
  import opened Keys

  /** The `arrowKeys` state: held flag per key name. */
  type KeyState = map<string, bool>

  /** A keyboard event as the indicator's listeners see it. */
  datatype KeyEvent = Down(key: string) | Up(key: string)

  /** Every reachable state has exactly the four arrow keys as its keys. */
  predicate WellFormed(m: KeyState)
  {
    m.Keys == ArrowKeys
  }

  /** The initial state: the four arrow keys, none held. */
  function Initial(): (m: KeyState)
    ensures WellFormed(m)
    ensures forall k | k in m :: !m[k]
  {
    map[ArrowUp := false, ArrowDown := false, ArrowLeft := false, ArrowRight := false]
  }

  /** The key-down updater `{...prevKeys, [key]: true}`, applied only to
      arrow keys. */
  function Pressed(m: KeyState, key: string): (r: KeyState)
    ensures IsArrowKey(key) ==> key in r && r[key]
    ensures !IsArrowKey(key) ==> r == m
    ensures forall k | k in m && k != key :: k in r && r[k] == m[k]
    ensures forall k | k in r && k != key :: k in m
    ensures WellFormed(m) ==> WellFormed(r)
  {
    if key in ArrowKeys then m[key := true] else m
  }

  /** The key-up updater `{...prevKeys, [key]: false}`, applied only to
      arrow keys. */
  function Released(m: KeyState, key: string): (r: KeyState)
    ensures IsArrowKey(key) ==> key in r && !r[key]
    ensures !IsArrowKey(key) ==> r == m
    ensures forall k | k in m && k != key :: k in r && r[k] == m[k]
    ensures forall k | k in r && k != key :: k in m
    ensures WellFormed(m) ==> WellFormed(r)
  {
    if key in ArrowKeys then m[key := false] else m
  }

  function Apply(m: KeyState, e: KeyEvent): KeyState
  {
    match e
    case Down(key) => Pressed(m, key)
    case Up(key) => Released(m, key)
  }

  /** The state after the listeners have seen `events`, in order. */
  function Replay(m: KeyState, events: seq<KeyEvent>): KeyState
    decreases |events|
  {
    if events == [] then m
    else Apply(Replay(m, events[..|events| - 1]), events[|events| - 1])
  }

  /** Reference meaning of the indicator: key k is shown held exactly when
      the last event about k was a key-down (or, with no such event, when
      it was held at the start). */
  function LastHeld(k: string, events: seq<KeyEvent>, initially: bool): bool
    decreases |events|
  {
    if events == [] then initially
    else if events[|events| - 1].key == k then events[|events| - 1].Down?
    else LastHeld(k, events[..|events| - 1], initially)
  }

  /** Replaying any event sequence keeps the four keys and shows, for each
      arrow key, whether its last event was a key-down. */
  lemma {:induction false} ReplayShowsLastEvent(m: KeyState, events: seq<KeyEvent>, k: string)
    requires WellFormed(m)
    requires IsArrowKey(k)
    ensures WellFormed(Replay(m, events))
    ensures Replay(m, events)[k] == LastHeld(k, events, m[k])
    decreases |events|
  {
    if events != [] {
      ReplayShowsLastEvent(m, events[..|events| - 1], k);
    }
  }

  /** Pressing an already pressed key changes nothing. */
  lemma PressedIdempotent(m: KeyState, key: string)
    ensures Pressed(Pressed(m, key), key) == Pressed(m, key)
  {
  }

  /** Key-down then key-up of an arrow key leaves that key released and
      every other key as it was. */
  lemma PressThenRelease(m: KeyState, key: string)
    requires WellFormed(m)
    requires IsArrowKey(key)
    ensures Released(Pressed(m, key), key) == m[key := false]
  {
  }

  /** The help button's updater `prev => !prev`. */
  function ToggleHelp(help: bool): (r: bool)
    ensures r != help
  {
    !help
  }

  lemma ToggleHelpTwice(help: bool)
    ensures ToggleHelp(ToggleHelp(help)) == help
  {
  }
}
