/** Counts kept in a map, where a missing key counts as none. */
module Counting {

  function CountOf<K>(counts: map<K, nat>, key: K): nat {
    if key in counts then counts[key] else 0
  }

  function CountIn<K>(counts: map<K, nat>, key: K): map<K, nat> {
    counts[key := CountOf(counts, key) + 1]
  }

  /** One occurrence less; a key that is down to none is deleted. */
  function CountOut<K>(counts: map<K, nat>, key: K): map<K, nat>
    requires key in counts && counts[key] > 0
  {
    if counts[key] - 1 == 0 then counts - {key} else counts[key := counts[key] - 1]
  }
}
