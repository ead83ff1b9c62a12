/** Display names for a track's key and mode. */
module Utils {
  import opened Seqs

  /** The twelve pitch classes in chromatic order, C through B. */
  const KeyNames: seq<string> :=
    ["C", "C♯/D♭", "D", "D♯/E♭", "E", "F", "F♯/G♭", "G", "G♯/A♭", "A", "A♯/B♭", "B"]

  /** `keyMappings[key] || 'Unknown'`: the pitch-class name of keys 0 to 11, and
      'Unknown' for every other key (the array lookup yields `undefined`). */
  function KeyName(key: int): (name: string)
    ensures 0 <= key < 12 ==> name == KeyNames[key]
    ensures name == "Unknown" <==> !(0 <= key < 12)
  {
    if 0 <= key < |KeyNames| then KeyNames[key] else "Unknown"
  }

  /** `mode === 1 ? 'Major' : 'Minor'`. */
  function ModeName(mode: int): (name: string)
    ensures name == "Major" <==> mode == 1
    ensures name == "Minor" <==> mode != 1
  {
    if mode == 1 then "Major" else "Minor"
  }

  /** The first position at or after `from` where `names` holds `name`. */
  function IndexOf(names: seq<string>, name: string, from: nat): (r: Option<nat>)
    decreases |names| - from
  {
    if from >= |names| then None
    else if names[from] == name then Some(from)
    else IndexOf(names, name, from + 1)
  }

  /** The key a name stands for: the inverse of `KeyName` on keys 0 to 11. */
  function KeyOfName(name: string): Option<nat> {
    IndexOf(KeyNames, name, 0)
  }

  lemma {:induction false} IndexOfFinds(names: seq<string>, from: nat, k: nat)
    requires from <= k < |names|
    requires forall i :: from <= i < k ==> names[i] != names[k]
    ensures IndexOf(names, names[k], from) == Some(k)
    decreases k - from
  {
    if from < k {
      IndexOfFinds(names, from + 1, k);
    }
  }

  /** Reading a key's name back gives the key: no two keys share a name. */
  lemma KeyNameRoundTrip(key: int)
    requires 0 <= key < 12
    ensures KeyOfName(KeyName(key)) == Some(key)
  {
    IndexOfFinds(KeyNames, 0, key);
  }

  /** `getKeyMapping` is injective on keys 0 to 11. */
  lemma KeyNameInjective(a: int, b: int)
    requires 0 <= a < 12 && 0 <= b < 12
    requires KeyName(a) == KeyName(b)
    ensures a == b
  {
    KeyNameRoundTrip(a);
    KeyNameRoundTrip(b);
  }
}
