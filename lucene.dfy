/**
 * The Lucene types the writer consumes: vector encodings, similarity
 * functions, the on-disk list of similarity functions and the part of a
 * field's description the writer reads.
 */
module Lucene {

  /** Lucene's VectorEncoding enum, in declaration order. */
  datatype VectorEncoding = BYTE | FLOAT32
  {
    /** The enum ordinal written into each metadata row. */
    function Ordinal(): (o: int)
      ensures 0 <= o < 2
      ensures (o == 1) <==> (this == FLOAT32)
    {
      match this
      case BYTE => 0
      case FLOAT32 => 1
    }

    function Name(): string
    {
      match this
      case BYTE => "BYTE"
      case FLOAT32 => "FLOAT32"
    }
  }

  /** Lucene's VectorSimilarityFunction enum. */
  datatype VectorSimilarityFunction = EUCLIDEAN | DOT_PRODUCT | COSINE | MAXIMUM_INNER_PRODUCT
  {
    function Name(): string
    {
      match this
      case EUCLIDEAN => "EUCLIDEAN"
      case DOT_PRODUCT => "DOT_PRODUCT"
      case COSINE => "COSINE"
      case MAXIMUM_INNER_PRODUCT => "MAXIMUM_INNER_PRODUCT"
    }
  }

  /**
   * The versioned, ordered list of similarity functions whose positions are
   * stored on disk (Lucene99HnswVectorsReader.SIMILARITY_FUNCTIONS).
   */
  const SIMILARITY_FUNCTIONS: seq<VectorSimilarityFunction> :=
    [EUCLIDEAN, DOT_PRODUCT, COSINE, MAXIMUM_INNER_PRODUCT]

  /** The position of a function in SIMILARITY_FUNCTIONS, as an independent table. */
  function SimilarityOrdinal(f: VectorSimilarityFunction): (o: nat)
    ensures o < |SIMILARITY_FUNCTIONS| && SIMILARITY_FUNCTIONS[o] == f
    ensures forall j :: 0 <= j < o ==> SIMILARITY_FUNCTIONS[j] != f
  {
    match f
    case EUCLIDEAN => 0
    case DOT_PRODUCT => 1
    case COSINE => 2
    case MAXIMUM_INNER_PRODUCT => 3
  }

  /** The fields of Lucene's FieldInfo that the writer reads. */
  datatype FieldInfo = FieldInfo(
    number: nat,
    encoding: VectorEncoding,
    similarity: VectorSimilarityFunction,
    dimension: nat)
}
