/** Counting dated, keyed events over intervals of time. */
module Timeline {

  type Time = int

  datatype Stamp<K> = Stamp(key: K, at: Time)

  /** How many events with this key lie in [from, to). */
  function Count<K(==)>(log: seq<Stamp<K>>, key: K, from: Time, to: Time): nat {
    if log == [] then 0
    else
      var last := log[|log| - 1];
      Count(log[..|log| - 1], key, from, to) + if last.key == key && from <= last.at < to then 1 else 0
  }

  /** How many lie at `from` or later. */
  function Since<K(==)>(log: seq<Stamp<K>>, key: K, from: Time): nat {
    if log == [] then 0
    else
      var last := log[|log| - 1];
      Since(log[..|log| - 1], key, from) + if last.key == key && from <= last.at then 1 else 0
  }

  lemma {:induction false} CountAndSince<K>(log: seq<Stamp<K>>, key: K, from: Time, to: Time)
    ensures from <= to ==> Since(log, key, from) == Count(log, key, from, to) + Since(log, key, to)
    ensures Count(log, key, from, to) <= Since(log, key, from)
    ensures (forall i | 0 <= i < |log| :: log[i].at < to) ==> Count(log, key, from, to) == Since(log, key, from)
  {
    if log != [] { CountAndSince(log[..|log| - 1], key, from, to); }
  }

  lemma Push<K>(log: seq<Stamp<K>>, s: Stamp<K>, key: K, from: Time)
    ensures Since(log + [s], key, from) == Since(log, key, from) + if s.key == key && from <= s.at then 1 else 0
    ensures forall to :: Count(log + [s], key, from, to) == Count(log, key, from, to) + if s.key == key && from <= s.at < to then 1 else 0
  {
    assert (log + [s])[..|log|] == log;
  }
}
