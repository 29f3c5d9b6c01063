/** Lists that a loop builds from another list: some entries, each once, in order. */
module Picking {

  /** What is made of every chosen entry of xs, in the order of xs. */
  function Picked<A, B>(xs: seq<A>, chosen: A -> bool, made: A -> B): seq<B> {
    if xs == [] then [] else
      var front, last := xs[..|xs| - 1], xs[|xs| - 1];
      Picked(front, chosen, made) + (if chosen(last) then [made(last)] else [])
  }

  lemma PickedStep<A, B>(xs: seq<A>, x: A, chosen: A -> bool, made: A -> B)
    ensures Picked(xs + [x], chosen, made) == Picked(xs, chosen, made) + (if chosen(x) then [made(x)] else [])
  {
    assert (xs + [x])[..|xs|] == xs;
  }

  /** Nothing else is in it. */
  lemma {:induction false} PickedAre<A, B>(xs: seq<A>, chosen: A -> bool, made: A -> B)
    ensures forall y :: y in Picked(xs, chosen, made) <==> exists x :: x in xs && chosen(x) && y == made(x)
  {
    if xs != [] {
      var front, last := xs[..|xs| - 1], xs[|xs| - 1];
      assert xs == front + [last];
      PickedAre(front, chosen, made);
    }
  }

  /** The chosen entry at position i comes after what is made of the entries before it, and there are no more than the chosen ones. */
  lemma {:induction false} PickedAt<A, B>(xs: seq<A>, chosen: A -> bool, made: A -> B, i: nat)
    requires i < |xs| && chosen(xs[i])
    ensures var k := |Picked(xs[..i], chosen, made)|;
      k < |Picked(xs, chosen, made)| && Picked(xs, chosen, made)[k] == made(xs[i])
  {
    var n := |xs| - 1;
    if i < n {
      assert xs[..n][..i] == xs[..i];
      PickedAt(xs[..n], chosen, made, i);
    }
  }

  lemma {:induction false} PickedCount<A, B>(xs: seq<A>, chosen: A -> bool, made: A -> B)
    ensures |Picked(xs, chosen, made)| == |set i | 0 <= i < |xs| && chosen(xs[i])|
  {
    if xs != [] {
      var n := |xs| - 1;
      PickedCount(xs[..n], chosen, made);
      var before, now := set i | 0 <= i < n && chosen(xs[..n][i]), set i | 0 <= i < |xs| && chosen(xs[i]);
      if chosen(xs[n]) { assert now == before + {n}; } else { assert now == before; }
    }
  }

  /** The same choice and the same making give the same list. */
  lemma {:induction false} PickedSame<A, B>(xs: seq<A>, chosen: A -> bool, made: A -> B, chosen': A -> bool, made': A -> B)
    requires forall i | 0 <= i < |xs| :: chosen(xs[i]) == chosen'(xs[i])
    requires forall i | 0 <= i < |xs| && chosen(xs[i]) :: made(xs[i]) == made'(xs[i])
    ensures Picked(xs, chosen, made) == Picked(xs, chosen', made')
  {
    if xs != [] { PickedSame(xs[..|xs| - 1], chosen, made, chosen', made'); }
  }
}
