/** The four `KeyboardEvent.key` names the map viewer reacts to. Both the
    camera controller and the on-screen key indicator compare against them. */
module Keys {

  const ArrowUp: string := "ArrowUp"
  const ArrowDown: string := "ArrowDown"
  const ArrowLeft: string := "ArrowLeft"
  const ArrowRight: string := "ArrowRight"

  const ArrowKeys: set<string> := {ArrowUp, ArrowDown, ArrowLeft, ArrowRight}

  predicate IsArrowKey(key: string)
  {
    key in ArrowKeys
  }

  /** The four names are pairwise different, so at most one branch of a
      dispatch on the key can apply. */
  lemma ArrowKeysDistinct()
    ensures ArrowUp != ArrowDown && ArrowUp != ArrowLeft && ArrowUp != ArrowRight
    ensures ArrowDown != ArrowLeft && ArrowDown != ArrowRight && ArrowLeft != ArrowRight
    ensures |ArrowKeys| == 4
  {
  }
}
