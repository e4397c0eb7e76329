/** Exclusive load and store on shared cells (the LDREX / STREX form of atomic.h).

    Every thread has at most one reservation. LDREX of a cell replaces it, CLREX drops it, and a
    successful STREX to a cell destroys every reservation on that cell. STREX succeeds only while the
    storing thread's reservation survives; it may also fail for no reason, and it never compares values.
 */
module Exclusive {
  type Tid = nat
  type Monitor<!Cell> = map<Tid, Cell>

  predicate Holds<Cell(==)>(m: Monitor<Cell>, t: Tid, cell: Cell) {
    t in m && m[t] == cell
  }

  function Ldrex<Cell>(m: Monitor<Cell>, t: Tid, cell: Cell): Monitor<Cell> {
    m[t := cell]
  }

  function Clrex<Cell>(m: Monitor<Cell>, t: Tid): Monitor<Cell> {
    m - {t}
  }

  /** What a completed store to `cell` leaves of the reservations. */
  function Stored<Cell(==)>(m: Monitor<Cell>, cell: Cell): Monitor<Cell> {
    map u | u in m && m[u] != cell :: m[u]
  }
}
