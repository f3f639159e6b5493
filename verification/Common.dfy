/** Definitions shared by the models. */
module Common {

  datatype Option<+T> = None | Some(value: T)

  /** How a write to a remote store ends: applied and acknowledged, applied but reported
      as an error, or not applied. */
  datatype Outcome = Acked | Lost | Refused

  /** An order in which a map may be ranged over: every key once. */
  ghost predicate IsIteration<K(!new), V>(m: map<K, V>, order: seq<K>) {
    && (forall i, j | 0 <= i < j < |order| :: order[i] != order[j])
    && (forall k :: k in m <==> k in order)
  }
}
