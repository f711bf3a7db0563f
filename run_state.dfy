/**
 * The run state a graph threads through its nodes: a mapping from field names to
 * text. A node returns an update (the fields it sets) and the update is merged into
 * the state, later keys replacing earlier ones.
 */
module RunState {

  /** Merge the updates of several nodes into `s`, in the given order. */
  function ApplyAll<F(==)>(s: map<F, string>, us: seq<map<F, string>>): (r: map<F, string>)
    ensures s.Keys <= r.Keys
    decreases |us|
  {
    if us == [] then s else ApplyAll(s + us[0], us[1..])
  }

  /** No two of the updates set the same field. */
  ghost predicate Disjoint<F>(us: seq<map<F, string>>)
  {
    forall i, j :: 0 <= i < j < |us| ==> us[i].Keys !! us[j].Keys
  }

  /** Updates that each set one field, no two the same field, are disjoint. */
  lemma SingleFieldsDisjoint<F>(us: seq<map<F, string>>, fields: seq<F>)
    requires |us| == |fields|
    requires forall i :: 0 <= i < |us| ==> us[i].Keys == {fields[i]}
    requires forall i, j :: 0 <= i < j < |fields| ==> fields[i] != fields[j]
    ensures Disjoint(us)
  {
  }

  /** A field that no update sets keeps its value (or stays absent). */
  lemma {:induction false} ApplyAllUntouched<F>(s: map<F, string>, us: seq<map<F, string>>, k: F)
    requires forall j :: 0 <= j < |us| ==> k !in us[j]
    ensures k in ApplyAll(s, us) <==> k in s
    ensures k in s ==> ApplyAll(s, us)[k] == s[k]
    decreases |us|
  {
    if us != [] {
      assert k !in us[0];
      ApplyAllUntouched(s + us[0], us[1..], k);
    }
  }

  /** Among disjoint updates, the one that sets a field decides its final value. */
  lemma {:induction false} ApplyAllWritten<F>(s: map<F, string>, us: seq<map<F, string>>, i: nat, k: F)
    requires Disjoint(us) && i < |us| && k in us[i]
    ensures k in ApplyAll(s, us) && ApplyAll(s, us)[k] == us[i][k]
    decreases |us|
  {
    if i == 0 {
      forall j | 0 <= j < |us[1..]| ensures k !in us[1..][j] {
        assert us[0].Keys !! us[j + 1].Keys;
      }
      ApplyAllUntouched(s + us[0], us[1..], k);
    } else {
      assert Disjoint(us[1..]) by {
        forall a, b | 0 <= a < b < |us[1..]| ensures us[1..][a].Keys !! us[1..][b].Keys {
          assert us[a + 1].Keys !! us[b + 1].Keys;
        }
      }
      ApplyAllWritten(s + us[0], us[1..], i - 1, k);
    }
  }

  /**
   * Updates that set disjoint fields can be merged in any order: two orderings of
   * the same updates give the same state. This is what makes a join independent of
   * the order in which its predecessors finish.
   */
  lemma JoinOrderIndependent<F(!new)>(s: map<F, string>, us: seq<map<F, string>>, vs: seq<map<F, string>>)
    requires Disjoint(us) && Disjoint(vs)
    requires forall u :: u in us <==> u in vs
    ensures ApplyAll(s, us) == ApplyAll(s, vs)
  {
    var a, b := ApplyAll(s, us), ApplyAll(s, vs);
    forall k ensures (k in a <==> k in b) && (k in a ==> a[k] == b[k]) {
      if i :| 0 <= i < |us| && k in us[i] {
        assert us[i] in us;
        assert us[i] in vs;
        var j :| 0 <= j < |vs| && vs[j] == us[i];
        ApplyAllWritten(s, us, i, k);
        ApplyAllWritten(s, vs, j, k);
      } else {
        forall j | 0 <= j < |vs| ensures k !in vs[j] {
          assert vs[j] in us;
        }
        ApplyAllUntouched(s, us, k);
        ApplyAllUntouched(s, vs, k);
      }
    }
    assert a.Keys == b.Keys;
  }
}
