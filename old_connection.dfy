/**
 * A connection of the early simulator revision (simulator/src/connection.rs).
 *
 * A connection points at a crossing through a weak reference and carries
 * a lane count.  Two connections are equal when they point at the very
 * same crossing, by identity, and have the same lane count.  The crossing
 * type is a parameter here; the crossings of this revision are references
 * to objects, so comparing them is comparing identities.
 */
module OldConnection {

  /** The unsigned 8-bit lane count. */
  type U8 = x: int | 0 <= x < 256

  datatype Connection<C> = Connection(crossing: C, lanes: U8)

  /** `Connection::new`: a one-lane connection to `crossing`. */
  function New<C>(crossing: C): (r: Connection<C>)
    ensures r.crossing == crossing && r.lanes == 1
  {
    Connection(crossing, 1)
  }

  /** `eq`: same target, compared by identity, and same lane count; this is
    * exactly equality of the two connection values. */
  function Eq<C(==)>(a: Connection<C>, b: Connection<C>): (r: bool)
    ensures r <==> a == b
  {
    a.crossing == b.crossing && a.lanes == b.lanes
  }

  /** `ne`: a different target or a different lane count; the exact
    * negation of `eq`. */
  function Ne<C(==)>(a: Connection<C>, b: Connection<C>): (r: bool)
    ensures r <==> !Eq(a, b)
  {
    a.crossing != b.crossing || a.lanes != b.lanes
  }
}
