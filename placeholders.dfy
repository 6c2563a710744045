/** The POST handler turns the request's ordered list of (key, value) pairs into
    the map handed to the template: each pair is written in list order, so a
    key given twice keeps the value of its last occurrence. */
module Placeholders {
  import opened Mail

  datatype Placeholder = Placeholder(key: string, value: Value)

  /** The keys mentioned anywhere in the list. */
  ghost function KeysOf(ps: seq<Placeholder>): set<string>
  {
    set i | 0 <= i < |ps| :: ps[i].key
  }

  /** The map after writing every pair of `ps`, first to last, into an empty map. */
  function PlaceholderMap(ps: seq<Placeholder>): (data: map<string, Value>)
    ensures data.Keys == KeysOf(ps)
  {
    if ps == [] then map[]
    else
      var init := ps[..|ps| - 1];
      var data := PlaceholderMap(init)[ps[|ps| - 1].key := ps[|ps| - 1].value];
      assert KeysOf(ps) == KeysOf(init) + {ps[|ps| - 1].key} by {
        forall k | k in KeysOf(ps) ensures k in KeysOf(init) + {ps[|ps| - 1].key} {
          var i :| 0 <= i < |ps| && ps[i].key == k;
          if i < |ps| - 1 { assert init[i] == ps[i]; }
        }
        forall k | k in KeysOf(init) ensures k in KeysOf(ps) {
          var i :| 0 <= i < |init| && init[i].key == k;
          assert ps[i] == init[i];
        }
      }
      data
  }

  /** Last write wins: the value a key ends up with is the one at its last
      occurrence in the list. */
  lemma {:induction false} LastOccurrenceWins(ps: seq<Placeholder>, i: nat)
    requires i < |ps|
    requires forall j | i < j < |ps| :: ps[j].key != ps[i].key
    ensures ps[i].key in PlaceholderMap(ps)
    ensures PlaceholderMap(ps)[ps[i].key] == ps[i].value
  {
    if i < |ps| - 1 {
      var init := ps[..|ps| - 1];
      forall j | i < j < |init| ensures init[j].key != init[i].key {
        assert init[j] == ps[j];
      }
      LastOccurrenceWins(init, i);
    }
  }

  /** Later pairs override earlier ones: folding `ps` and then `qs` is the
      first map overwritten by the second. */
  lemma {:induction false} PlaceholderMapAppend(ps: seq<Placeholder>, qs: seq<Placeholder>)
    ensures PlaceholderMap(ps + qs) == PlaceholderMap(ps) + PlaceholderMap(qs)
  {
    if qs != [] {
      var init := qs[..|qs| - 1];
      assert (ps + qs)[..|ps + qs| - 1] == ps + init;
      PlaceholderMapAppend(ps, init);
    } else {
      assert ps + qs == ps;
    }
  }

  /** The loop of the POST handler that writes each pair into a fresh map.
      `Handlers.PostDecision` uses `PlaceholderMap`, which this loop equals. */
  method CollectPlaceholders(ps: seq<Placeholder>) returns (data: map<string, Value>)
    ensures data == PlaceholderMap(ps)
  {
    data := map[];
    for i := 0 to |ps|
      invariant data == PlaceholderMap(ps[..i])
    {
      assert ps[..i + 1][..i] == ps[..i];
      data := data[ps[i].key := ps[i].value];
    }
    assert ps[..|ps|] == ps;
  }
}
