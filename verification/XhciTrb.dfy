/**
 Transfer request blocks (section 6.4 of the xHCI specification): four 32-bit
 words, of which the last carries the cycle bit and the type.
 */
module XhciTrb {
  type Trb = t: seq<nat> | |t| == 4 witness [0, 0, 0, 0]

  const LINK := 6

  predicate Cycle(w: nat) { w % 2 == 1 }
  predicate Toggles(w: nat) { w / 2 % 2 == 1 }
  function Kind(w: nat): nat { w / 1024 % 64 }
  function WithCycle(w: nat, c: bool): nat { w - w % 2 + if c then 1 else 0 }

  lemma ControlWord(w: nat, c: bool)
    ensures Cycle(WithCycle(w, c)) == c && Toggles(WithCycle(w, c)) == Toggles(w) && Kind(WithCycle(w, c)) == Kind(w)
    ensures WithCycle(WithCycle(w, c), false) == WithCycle(w, false)
  {
    var h := w / 2;
    assert WithCycle(w, c) == 2 * h + if c then 1 else 0;
    assert WithCycle(w, c) / 1024 == w / 1024;
  }

  predicate IsLink(t: Trb) { Kind(t[3]) == LINK }

  /** A TRB without its cycle bit: what it says. */
  function Strip(t: Trb): Trb { t[3 := WithCycle(t[3], false)] }

  predicate LinkTrb(t: Trb) { IsLink(t) && Toggles(t[3]) }
}
