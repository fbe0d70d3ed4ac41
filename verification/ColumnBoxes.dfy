/** The S-box of Rijndael on four bytes at once, as both SNOW 3G and Rijndael apply it. */
module ColumnBoxes {
  import opened SBoxes
  import opened MixColumns

  function SubS(q: Quad): Quad { Quad(S(q.b0), S(q.b1), S(q.b2), S(q.b3)) }

  function UnsubS(q: Quad): Quad { Quad(SInverse(q.b0), SInverse(q.b1), SInverse(q.b2), SInverse(q.b3)) }

  lemma SubSHasInverse(q: Quad)
    ensures UnsubS(SubS(q)) == q && SubS(UnsubS(q)) == q
  {
    hide S, SInverse;
    forall x: bv8
      ensures SInverse(S(x)) == x && S(SInverse(x)) == x
    {
      SInverseUndoesS(x);
      SUndoesSInverse(x);
    }
  }
}
