/**
 * The server's fare record (data/Fare.java): an immutable segment price
 * between two station codes. Java's `equals` compares all three fields in
 * their direction, which is exactly equality of this datatype.
 */
module FareData {

  datatype Fare = Fare(from: string, to: string, price: int)
  {
    /** isValid: both codes non-empty and a positive price. */
    predicate IsValid()
    {
      from != "" && to != "" && price > 0
    }

    /** isForSegment: the fare is for exactly this direction. */
    predicate IsForSegment(a: string, b: string)
    {
      from == a && to == b
    }

    /** isForSegmentBidirectional: the fare is for this pair in either direction. */
    predicate IsForSegmentBidirectional(a: string, b: string)
    {
      (from == a && to == b) || (from == b && to == a)
    }

    /** getSymmetricFare: the same price for the reverse direction. */
    function Symmetric(): (r: Fare)
      ensures r.from == to && r.to == from && r.price == price
    {
      Fare(to, from, price)
    }
  }

  /** Reversing a fare twice gives back an equal fare, and validity does not depend on the direction. */
  lemma SymmetricTwice(f: Fare)
    ensures f.Symmetric().Symmetric() == f
    ensures f.Symmetric().IsValid() <==> f.IsValid()
  {
  }

  /**
   * Equality is direction-sensitive: a fare equals its reverse exactly when
   * both ends are the same code.
   */
  lemma EqualsSymmetricIff(f: Fare)
    ensures f == f.Symmetric() <==> f.from == f.to
  {
    if f == f.Symmetric() {
      assert f.from == f.Symmetric().from;
    }
  }

  /**
   * The two-way match does not care about the order of its arguments, is
   * implied by the one-way match, and a fare matches its reverse's segment
   * both ways.
   */
  lemma BidirectionalMatch(f: Fare, a: string, b: string)
    ensures f.IsForSegmentBidirectional(a, b) <==> f.IsForSegmentBidirectional(b, a)
    ensures f.IsForSegment(a, b) ==> f.IsForSegmentBidirectional(a, b)
    ensures f.IsForSegmentBidirectional(a, b) <==> f.IsForSegment(a, b) || f.IsForSegment(b, a)
    ensures f.IsForSegmentBidirectional(a, b) <==> f.Symmetric().IsForSegmentBidirectional(a, b)
  {
  }
}
