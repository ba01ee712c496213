/**
 The circular doubly linked list of the buffer cache, as two link tables over
 buffer numbers. A `chain` spells out one trip round the list: it starts and
 ends at the list head and visits every buffer on the way.
 */
module BufferRing {

  type Links = seq<nat>

  /** `chain` goes from `head` back to `head`, visiting distinct other nodes in between. */
  ghost predicate IsTrip(chain: seq<nat>, head: nat) {
    && |chain| >= 2
    && chain[0] == head && chain[|chain| - 1] == head
    && (forall i, j :: 0 < i < j < |chain| - 1 ==> chain[i] != chain[j])
    && (forall i :: 0 < i < |chain| - 1 ==> chain[i] != head)
  }

  /** The next links follow the chain forward and the prev links follow it backward. */
  ghost predicate Linked(next: Links, prev: Links, chain: seq<nat>) {
    && |next| == |prev|
    && (forall i :: 0 <= i < |chain| ==> chain[i] < |next|)
    && (forall i :: 0 <= i < |chain| - 1 ==> next[chain[i]] == chain[i + 1])
    && (forall i :: 0 <= i < |chain| - 1 ==> prev[chain[i + 1]] == chain[i])
  }

  function Without(chain: seq<nat>, k: nat): seq<nat>
    requires k < |chain|
  {
    chain[..k] + chain[k + 1..]
  }

  function WithFirst(chain: seq<nat>, b: nat): seq<nat>
    requires |chain| >= 1
  {
    chain[..1] + [b] + chain[1..]
  }

  /** Unlinking the node at position k: its two neighbours are linked to each other. */
  lemma Unlink(next: Links, prev: Links, chain: seq<nat>, head: nat, k: nat)
    requires IsTrip(chain, head) && Linked(next, prev, chain)
    requires 0 < k < |chain| - 1
    ensures next[chain[k]] == chain[k + 1] && prev[chain[k]] == chain[k - 1]
    ensures var short := Without(chain, k);
            && IsTrip(short, head)
            && Linked(next[chain[k - 1] := chain[k + 1]], prev[chain[k + 1] := chain[k - 1]], short)
            && chain[k] !in short
  {
    var b, before, after := chain[k], chain[k - 1], chain[k + 1];
    assert next[b] == after && prev[chain[k - 1 + 1]] == before;
    var short := Without(chain, k);
    var next', prev' := next[before := after], prev[after := before];
    forall i | 0 <= i < |short| - 1
      ensures next'[short[i]] == short[i + 1]
      ensures prev'[short[i + 1]] == short[i]
    {
      if i < k - 1 {
        assert short[i] == chain[i] && short[i + 1] == chain[i + 1];
      } else if i == k - 1 {
        assert short[i] == before && short[i + 1] == after;
      } else {
        assert short[i] == chain[i + 1] && short[i + 1] == chain[i + 2];
      }
    }
  }

  /** Linking a node in at the front: next and prev of the node, then of its two neighbours. */
  lemma LinkFirst(next: Links, prev: Links, chain: seq<nat>, head: nat, b: nat)
    requires IsTrip(chain, head) && Linked(next, prev, chain)
    requires b < |next| && b !in chain
    ensures next[head] == chain[1]
    ensures var next' := next[b := chain[1]][head := b];
            var prev' := prev[b := head][chain[1] := b];
            IsTrip(WithFirst(chain, b), head) && Linked(next', prev', WithFirst(chain, b))
  {
    var long := WithFirst(chain, b);
    var next' := next[b := chain[1]][head := b];
    var prev' := prev[b := head][chain[1] := b];
    forall i | 0 <= i < |long| - 1
      ensures next'[long[i]] == long[i + 1]
      ensures prev'[long[i + 1]] == long[i]
    {
      if i >= 2 {
        assert long[i] == chain[i - 1] && long[i + 1] == chain[i];
      }
    }
  }
}
