/** The naming rule shared by the scene registry and the resource manager:
    a requested name that is already taken is extended with "1" until it is free. */
module Names {

  /** `n` copies of the character '1'. */
  function Ones(n: nat): (s: string)
    ensures |s| == n
  {
    if n == 0 then "" else "1" + Ones(n - 1)
  }

  /** Whether `name` is a key of `m` (Scene::ItemExistsInMap, ResourceManager::ItemExistsInMap). */
  predicate ItemExistsInMap<T>(name: string, m: map<string, T>)
  {
    name in m
  }

  /** The taken names at least as long as `len`: the measure that shrinks as the name grows. */
  ghost function AtLeastAsLong(taken: set<string>, len: nat): set<string>
  {
    set k | k in taken && |k| >= len
  }

  /** Appending "1" and then k ones is appending k + 1 ones. */
  lemma AppendOne(name: string, k: nat)
    ensures (name + "1") + Ones(k) == name + Ones(k + 1)
  {
    assert Ones(k + 1) == "1" + Ones(k);
  }

  /** The name the "append 1 until free" loop ends with. */
  function FreshName(name: string, taken: set<string>): (r: string)
    ensures r !in taken
    ensures |r| >= |name| && r == name + Ones(|r| - |name|)
    ensures forall m | 0 <= m < |r| - |name| :: name + Ones(m) in taken
    ensures name !in taken ==> r == name
    decreases AtLeastAsLong(taken, |name|)
  {
    if name in taken then
      assert name !in AtLeastAsLong(taken, |name| + 1);
      var r := FreshName(name + "1", taken);
      AppendOne(name, |r| - |name| - 1);
      forall m | 0 <= m < |r| - |name|
        ensures name + Ones(m) in taken
      {
        if m == 0 {
          assert name + Ones(m) == name;
        } else {
          AppendOne(name, m - 1);
        }
      }
      r
    else
      name
  }
}
