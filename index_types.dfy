/** The requested index type and the kinds of sub-index it can ask for. */
module IndexTypes {

  /** The three kinds of sub-index, in the order a field writes them. */
  datatype IndexKind = CagraKind | BruteForceKind | HnswKind

  /** CuVSVectorsWriter.IndexType: four named combinations of three flags. */
  datatype IndexType = CAGRA | BRUTE_FORCE | HNSW | CAGRA_AND_BRUTE_FORCE
  {
    /** The constructor arguments (cagra, bruteForce, hnsw) of each constant. */
    function Flags(): (bool, bool, bool)
    {
      match this
      case CAGRA => (true, false, false)
      case BRUTE_FORCE => (false, true, false)
      case HNSW => (false, false, true)
      case CAGRA_AND_BRUTE_FORCE => (true, true, false)
    }

    predicate Cagra() { Flags().0 }

    predicate BruteForce() { Flags().1 }

    predicate Hnsw() { Flags().2 }

    /** Whether this type asks for a sub-index of kind k. */
    predicate Requests(k: IndexKind)
    {
      match k
      case CagraKind => Cagra()
      case BruteForceKind => BruteForce()
      case HnswKind => Hnsw()
    }
  }

  /**
   * The flags are a faithful encoding: distinct constants have distinct
   * flags, every constant asks for something, HNSW is never combined, and
   * CAGRA_AND_BRUTE_FORCE asks for exactly what CAGRA and BRUTE_FORCE do.
   */
  lemma FlagTable(a: IndexType, b: IndexType, k: IndexKind)
    ensures a.Flags() == b.Flags() ==> a == b
    ensures a.Cagra() || a.BruteForce() || a.Hnsw()
    ensures a.Hnsw() ==> a == HNSW
    ensures CAGRA_AND_BRUTE_FORCE.Requests(k) <==> CAGRA.Requests(k) || BRUTE_FORCE.Requests(k)
  {
  }
}
