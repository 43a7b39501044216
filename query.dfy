/**
 * Query strings as ordered lists of key/value pairs: the `URLSearchParams`
 * object that both the server (src/app/api/route.ts) and the client
 * (src/app/page.tsx) fill by successive `append` calls.
 */
module Query {
  import opened Wrappers

  type Pairs = seq<(string, string)>

  /** `URLSearchParams.get`: the value of the first pair with the key, or null. */
  function Lookup(pairs: Pairs, key: string): (r: Option<string>)
    ensures r.Some? ==> (key, r.value) in pairs
  {
    if pairs == [] then None
    else if pairs[0].0 == key then Some(pairs[0].1)
    else Lookup(pairs[1..], key)
  }

  /** `get` is null exactly when no pair has the key, and otherwise the value of the first pair that has it. */
  lemma {:induction false} LookupFirstMatch(pairs: Pairs, key: string)
    ensures Lookup(pairs, key).None? <==> forall i :: 0 <= i < |pairs| ==> pairs[i].0 != key
    ensures Lookup(pairs, key).Some? ==>
              exists i :: 0 <= i < |pairs| && pairs[i] == (key, Lookup(pairs, key).value)
                          && forall j :: 0 <= j < i ==> pairs[j].0 != key
  {
    if pairs != [] && pairs[0].0 != key {
      LookupFirstMatch(pairs[1..], key);
      var r := Lookup(pairs, key);
      if r.Some? {
        var i :| 0 <= i < |pairs[1..]| && pairs[1..][i] == (key, r.value)
                 && forall j :: 0 <= j < i ==> pairs[1..][j].0 != key;
        assert pairs[i + 1] == (key, r.value);
        assert forall j :: 0 <= j < i + 1 ==> pairs[j].0 != key by {
          forall j | 0 <= j < i + 1 ensures pairs[j].0 != key {
            if j > 0 {
              assert pairs[j] == pairs[1..][j - 1];
            }
          }
        }
      } else {
        assert forall i :: 0 <= i < |pairs| ==> pairs[i].0 != key by {
          forall i | 0 <= i < |pairs| ensures pairs[i].0 != key {
            if i > 0 {
              assert pairs[i] == pairs[1..][i - 1];
            }
          }
        }
      }
    }
  }

  /** The keys in the order they were appended. */
  function Keys(pairs: Pairs): (ks: seq<string>)
    ensures |ks| == |pairs| && forall i :: 0 <= i < |pairs| ==> ks[i] == pairs[i].0
  {
    if pairs == [] then [] else [pairs[0].0] + Keys(pairs[1..])
  }

  /** In a query whose keys are distinct, each key reads back its own value. */
  lemma LookupDistinct(ps: Pairs, i: nat)
    requires i < |ps|
    requires forall j :: 0 <= j < i ==> ps[j].0 != ps[i].0
    ensures Lookup(ps, ps[i].0) == Some(ps[i].1)
  {
    if i > 0 {
      LookupDistinct(ps[1..], i - 1);
    }
  }

  /** When the keys are pairwise distinct, every key reads back the value appended with it. */
  lemma LookupDistinctKeys(ps: Pairs, keys: seq<string>)
    requires Keys(ps) == keys
    requires forall i, j :: 0 <= i < j < |keys| ==> keys[i] != keys[j]
    ensures forall i :: 0 <= i < |ps| ==> Lookup(ps, keys[i]) == Some(ps[i].1)
  {
    forall i | 0 <= i < |ps|
      ensures Lookup(ps, keys[i]) == Some(ps[i].1)
    {
      LookupDistinct(ps, i);
    }
  }

  /** A `URLSearchParams` being filled in place. */
  class SearchParams {
    var pairs: Pairs

    constructor ()
      ensures pairs == []
    {
      pairs := [];
    }

    /** `append`: adds one pair at the end, even when the key is already present. */
    method Append(key: string, value: string)
      modifies this
      ensures pairs == old(pairs) + [(key, value)]
    {
      pairs := pairs + [(key, value)];
    }
  }
}
