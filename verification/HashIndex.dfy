/** Chains of nodes in a hash table: every node once, on the chain a placement says. */
module HashIndex {

  function Without(s: seq<nat>, id: nat): seq<nat> {
    if s == [] then [] else (if s[0] == id then [] else [s[0]]) + Without(s[1..], id)
  }

  ghost predicate NoDup(s: seq<nat>) {
    forall i, j | 0 <= i < j < |s| :: s[i] != s[j]
  }

  ghost predicate ChainOk(chain: seq<nat>, place: map<nat, nat>, i: nat) {
    && (forall k | 0 <= k < |chain| :: chain[k] in place && place[chain[k]] == i)
    && NoDup(chain)
  }

  /** An index threads exactly the nodes of `place`, each once, on the chain it says. */
  ghost predicate IndexOk(ix: seq<seq<nat>>, place: map<nat, nat>) {
    && (forall i | 0 <= i < |ix| :: ChainOk(ix[i], place, i))
    && (forall id | id in place :: place[id] < |ix| && id in ix[place[id]])
  }

  lemma {:induction false} WithoutIs(s: seq<nat>, id: nat, x: nat)
    ensures x in Without(s, id) <==> x in s && x != id
  {
    if s != [] {
      WithoutIs(s[1..], id, x);
      assert s == [s[0]] + s[1..];
    }
  }

  lemma {:induction false} WithoutNoDup(s: seq<nat>, id: nat)
    requires NoDup(s)
    ensures NoDup(Without(s, id))
  {
    if s != [] {
      WithoutNoDup(s[1..], id);
      WithoutIs(s[1..], id, s[0]);
    }
  }

  lemma IndexAdd(ix: seq<seq<nat>>, place: map<nat, nat>, id: nat, b: nat)
    requires IndexOk(ix, place) && id !in place && b < |ix|
    ensures IndexOk(ix[b := [id] + ix[b]], place[id := b])
  {
    var ix1, place1 := ix[b := [id] + ix[b]], place[id := b];
    forall i | 0 <= i < |ix1|
      ensures ChainOk(ix1[i], place1, i)
    {
      assert ChainOk(ix[i], place, i);
    }
    forall x | x in place1
      ensures place1[x] < |ix1| && x in ix1[place1[x]]
    {
      if x == id {
        assert ix1[b][0] == id;
      } else {
        assert x in ix[place[x]];
      }
    }
  }

  lemma IndexRemove(ix: seq<seq<nat>>, place: map<nat, nat>, id: nat)
    requires IndexOk(ix, place) && id in place
    ensures IndexOk(ix[place[id] := Without(ix[place[id]], id)], place - {id})
  {
    var b := place[id];
    var ix1, place1 := ix[b := Without(ix[b], id)], place - {id};
    assert ChainOk(ix[b], place, b);
    WithoutNoDup(ix[b], id);
    forall i | 0 <= i < |ix1|
      ensures ChainOk(ix1[i], place1, i)
    {
      assert ChainOk(ix[i], place, i);
      forall k | 0 <= k < |ix1[i]|
        ensures ix1[i][k] in place1 && place1[ix1[i][k]] == i
      {
        if i == b {
          WithoutIs(ix[b], id, ix1[i][k]);
        }
      }
    }
    forall x | x in place1
      ensures place1[x] < |ix1| && x in ix1[place1[x]]
    {
      WithoutIs(ix[b], id, x);
    }
  }

  /** Moving a node's place without touching the chains is right only if it does not move. */
  lemma IndexMoved(ix: seq<seq<nat>>, place: map<nat, nat>, id: nat, b: nat)
    requires IndexOk(ix, place) && id in place
    ensures IndexOk(ix, place[id := b]) <==> b == place[id]
  {
    if b == place[id] {
      assert place[id := b] == place;
    } else {
      var a := place[id];
      assert id in ix[a];
      var k :| 0 <= k < |ix[a]| && ix[a][k] == id;
      assert place[id := b][ix[a][k]] != a;
      assert !ChainOk(ix[a], place[id := b], a);
    }
  }
}
