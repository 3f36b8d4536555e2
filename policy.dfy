/**
 * How one field's dataset becomes sub-indexes in the blob: the native
 * build-and-serialize calls as an oracle, the static substitution for tiny
 * datasets, the tolerated CAGRA failure and the HNSW threshold. FieldSpec
 * is what writeFieldInternal does to the blob and which placement (or
 * exception) it produces; the lemmas below state the policy.
 */
module Policy {
  import opened Wrappers
  import opened Failures
  import opened Streams
  import opened IndexTypes

  /** Fewest vectors for which a CAGRA graph is built. */
  const MIN_CAGRA_INDEX_SIZE: nat := 2

  /** Writer threads of the brute-force builder, fixed in the source. */
  const BRUTE_FORCE_WRITER_THREADS: int := 32

  datatype CagraGraphBuildAlgo = NN_DESCENT

  /** The parameters handed to the native builders. */
  datatype BuildParams =
    | CagraParams(writerThreads: int, intermediateGraphDegree: int, graphDegree: int,
                  algo: CagraGraphBuildAlgo)
    | BruteForceParams(writerThreads: int)

  /** The writer's construction-time configuration. */
  datatype Config = Config(
    writerThreads: int, intGraphDegree: int, graphDegree: int, indexType: IndexType)

  /**
   * What the native library does with one build-and-serialize request: the
   * serialized bytes, or an exception with its message and the bytes it had
   * already written to the stream.
   */
  datatype NativeOutcome =
    | Built(bytes: seq<byte>)
    | Thrown(message: Option<string>, partial: seq<byte>)

  /** The native library: serialize a kind of index built with params over a dataset. */
  type Builder<!V> = (IndexKind, BuildParams, seq<V>) -> NativeOutcome

  /** One writeXIndex call: bytes appended to the blob, and the exception if one escaped. */
  datatype Attempt = Wrote(bytes: seq<byte>) | Threw(error: Error, partial: seq<byte>)
  {
    /** The bytes the call left in the blob, complete or not. */
    function Written(): seq<byte>
    {
      match this
      case Wrote(b) => b
      case Threw(_, p) => p
    }
  }

  function FromNative(o: NativeOutcome): Attempt
  {
    match o
    case Built(b) => Wrote(b)
    case Thrown(m, p) => Threw(Native(m), p)
  }

  /** cagraIndexParams: the CAGRA parameters, refused below two vectors. */
  function CagraIndexParams(cfg: Config, size: nat): Result<BuildParams, Error>
  {
    if size < 2 then Err(CagraIndexTooSmall)
    else Ok(CagraParams(cfg.writerThreads, cfg.intGraphDegree, cfg.graphDegree, NN_DESCENT))
  }

  /** writeCagraIndex and writeHNSWIndex: size guard, parameters, native build. */
  function GraphAttempt<V>(cfg: Config, build: Builder<V>, kind: IndexKind, ds: seq<V>): Attempt
  {
    if |ds| < 2 then Threw(TooFewVectors(|ds|), [])
    else match CagraIndexParams(cfg, |ds|)
      case Err(e) => Threw(e, [])
      case Ok(params) => FromNative(build(kind, params, ds))
  }

  /** writeBruteForceIndex: native build with the fixed thread count. */
  function BruteForceAttempt<V>(build: Builder<V>, ds: seq<V>): Attempt
  {
    FromNative(build(BruteForceKind, BruteForceParams(BRUTE_FORCE_WRITER_THREADS), ds))
  }

  /**
   * The static substitution: a CAGRA request over fewer than
   * MIN_CAGRA_INDEX_SIZE vectors is served by brute force alone.
   */
  function EffectiveType(configured: IndexType, size: nat): (t: IndexType)
    ensures t.Cagra() ==> size >= MIN_CAGRA_INDEX_SIZE
    ensures t != configured <==> configured.Cagra() && size < MIN_CAGRA_INDEX_SIZE
    ensures t != configured ==> t == BRUTE_FORCE
  {
    if configured.Cagra() && size < MIN_CAGRA_INDEX_SIZE then BRUTE_FORCE else configured
  }

  /** The outcome of one of the three steps of a field: bytes, type from then on, escaped exception. */
  datatype Phase = Phase(bytes: seq<byte>, indexType: IndexType, error: Option<Error>)

  /** The CAGRA step: a tolerated failure switches the field over to brute force. */
  function CagraPhase<V>(cfg: Config, build: Builder<V>, t: IndexType, ds: seq<V>): Phase
  {
    if !t.Cagra() then Phase([], t, None)
    else
      var a := GraphAttempt(cfg, build, CagraKind, ds);
      if a.Wrote? then Phase(a.bytes, t, None)
      else match HandleThrowableWithIgnore(a.error, CANNOT_GENERATE_CAGRA)
        case None => Phase(a.partial, BRUTE_FORCE, None)
        case Some(e) => Phase(a.partial, t, Some(e))
  }

  /** The brute-force step: every failure escapes. */
  function BruteForcePhase<V>(build: Builder<V>, t: IndexType, ds: seq<V>): Phase
  {
    if !t.BruteForce() then Phase([], t, None)
    else
      var a := BruteForceAttempt(build, ds);
      if a.Wrote? then Phase(a.bytes, t, None) else Phase(a.partial, t, Some(a.error))
  }

  /** The HNSW step: only above MIN_CAGRA_INDEX_SIZE vectors; a tolerated failure is just dropped. */
  function HnswPhase<V>(cfg: Config, build: Builder<V>, t: IndexType, ds: seq<V>): Phase
  {
    if !t.Hnsw() || |ds| <= MIN_CAGRA_INDEX_SIZE then Phase([], t, None)
    else
      var a := GraphAttempt(cfg, build, HnswKind, ds);
      if a.Wrote? then Phase(a.bytes, t, None)
      else match HandleThrowableWithIgnore(a.error, CANNOT_GENERATE_CAGRA)
        case None => Phase(a.partial, t, None)
        case Some(e) => Phase(a.partial, t, Some(e))
  }

  /** What writing one field appends to the blob, and its placement or the exception. */
  datatype FieldWrite = FieldWrite(bytes: seq<byte>, placement: Result<Placement, Error>)

  /**
   * writeFieldInternal over a dataset when the blob's file pointer is base:
   * an empty dataset writes nothing and gets the all-zero placement;
   * otherwise the three steps run in order and each offset is the file
   * pointer before its step.
   */
  function FieldSpec<V>(cfg: Config, build: Builder<V>, ds: seq<V>, base: nat): FieldWrite
  {
    if |ds| == 0 then FieldWrite([], Ok(EMPTY_PLACEMENT))
    else
      var c := CagraPhase(cfg, build, EffectiveType(cfg.indexType, |ds|), ds);
      if c.error.Some? then FieldWrite(c.bytes, Err(c.error.value))
      else
        var b := BruteForcePhase(build, c.indexType, ds);
        if b.error.Some? then FieldWrite(c.bytes + b.bytes, Err(b.error.value))
        else
          var h := HnswPhase(cfg, build, c.indexType, ds);
          var bytes := c.bytes + b.bytes + h.bytes;
          if h.error.Some? then FieldWrite(bytes, Err(h.error.value))
          else
            FieldWrite(bytes, Ok(Placement(
              base, |c.bytes|,
              base + |c.bytes|, |b.bytes|,
              base + |c.bytes| + |b.bytes|, |h.bytes|)))
  }

  /** An empty field writes nothing to the blob and gets the all-zero placement. */
  lemma EmptyFieldIsZeroRow<V>(cfg: Config, build: Builder<V>, ds: seq<V>, base: nat)
    requires |ds| == 0
    ensures FieldSpec(cfg, build, ds, base) == FieldWrite([], Ok(EMPTY_PLACEMENT))
  {
  }

  /**
   * For a non-empty field the three sub-indexes tile what the field appended:
   * the first starts at the old file pointer, each next one starts where the
   * previous ended, and the blob grew by exactly the sum of the lengths.
   */
  lemma PlacementTilesBlob<V>(cfg: Config, build: Builder<V>, ds: seq<V>, base: nat)
    requires |ds| > 0
    ensures var w := FieldSpec(cfg, build, ds, base);
      w.placement.Ok? ==>
        && w.placement.value.cagraOffset == base
        && w.placement.value.Tiles()
        && |w.bytes| == w.placement.value.TotalLength()
  {
  }

  /**
   * Static substitution: CAGRA requested over a single vector builds no
   * CAGRA graph and a brute-force index instead, whatever else was asked.
   */
  lemma SingleVectorGetsBruteForce<V>(cfg: Config, build: Builder<V>, ds: seq<V>, base: nat)
    requires cfg.indexType.Cagra() && |ds| == 1
    ensures var w := FieldSpec(cfg, build, ds, base);
      match BruteForceAttempt(build, ds)
      case Wrote(b) => w == FieldWrite(b, Ok(Placement(base, 0, base, |b|, base + |b|, 0)))
      case Threw(e, p) => w == FieldWrite(p, Err(e))
  {
  }

  /**
   * A CAGRA failure whose message contains CANNOT_GENERATE_CAGRA is
   * swallowed: its partial bytes count as the CAGRA length and a brute-force
   * index follows, even when only CAGRA was requested.
   */
  lemma RecoverableCagraFailureFallsBack<V>(
    cfg: Config, build: Builder<V>, ds: seq<V>, base: nat, m: string, partial: seq<byte>)
    requires cfg.indexType.Cagra() && |ds| >= MIN_CAGRA_INDEX_SIZE
    requires build(CagraKind, CagraParams(cfg.writerThreads, cfg.intGraphDegree, cfg.graphDegree, NN_DESCENT), ds)
      == Thrown(Some(m), partial)
    requires Contains(m, CANNOT_GENERATE_CAGRA)
    ensures var w := FieldSpec(cfg, build, ds, base);
      match BruteForceAttempt(build, ds)
      case Wrote(b) =>
        w == FieldWrite(partial + b,
          Ok(Placement(base, |partial|, base + |partial|, |b|, base + |partial| + |b|, 0)))
      case Threw(e, p) => w == FieldWrite(partial + p, Err(e))
  {
  }

  /**
   * Any other CAGRA failure escapes: the field gets no placement, and only the
   * bytes the failed call had written stay in the blob. A failure without a
   * message escapes as the NullPointerException of the message test.
   */
  lemma OtherCagraFailureAborts<V>(
    cfg: Config, build: Builder<V>, ds: seq<V>, base: nat, m: Option<string>, partial: seq<byte>)
    requires cfg.indexType.Cagra() && |ds| >= MIN_CAGRA_INDEX_SIZE
    requires build(CagraKind, CagraParams(cfg.writerThreads, cfg.intGraphDegree, cfg.graphDegree, NN_DESCENT), ds)
      == Thrown(m, partial)
    requires !(m.Some? && Contains(m.value, CANNOT_GENERATE_CAGRA))
    ensures FieldSpec(cfg, build, ds, base)
      == FieldWrite(partial, Err(if m.None? then NullMessage else Native(m)))
  {
  }

  /**
   * The size guards of writeCagraIndex, cagraIndexParams and writeHNSWIndex
   * never fire: every exception that escapes a field comes from the native
   * library (or from testing a message that was null).
   */
  lemma OnlyNativeFailuresEscape<V>(cfg: Config, build: Builder<V>, ds: seq<V>, base: nat)
    ensures var w := FieldSpec(cfg, build, ds, base);
      w.placement.Err? ==> w.placement.error.Native? || w.placement.error == NullMessage
  {
  }

  /**
   * Which sub-indexes can be non-empty: CAGRA only when requested over at
   * least two vectors, brute force only when requested or substituted for
   * CAGRA, HNSW only when requested over more than two vectors.
   */
  lemma LengthsFollowRequest<V>(cfg: Config, build: Builder<V>, ds: seq<V>, base: nat)
    ensures var w := FieldSpec(cfg, build, ds, base);
      w.placement.Ok? ==>
        && (w.placement.value.cagraLength > 0 ==>
              cfg.indexType.Cagra() && |ds| >= MIN_CAGRA_INDEX_SIZE)
        && (w.placement.value.bruteForceLength > 0 ==>
              cfg.indexType.BruteForce() || cfg.indexType.Cagra())
        && (w.placement.value.hnswLength > 0 ==>
              cfg.indexType.Hnsw() && |ds| > MIN_CAGRA_INDEX_SIZE)
  {
  }

  /**
   * HNSW requested over one or two vectors: nothing is built at all, and the
   * field's row records three zero lengths at the current file pointer.
   */
  lemma SmallHnswFieldIsUnindexed<V>(cfg: Config, build: Builder<V>, ds: seq<V>, base: nat)
    requires cfg.indexType == HNSW && 0 < |ds| <= MIN_CAGRA_INDEX_SIZE
    ensures FieldSpec(cfg, build, ds, base) == FieldWrite([], Ok(Placement(base, 0, base, 0, base, 0)))
  {
  }

  /** A tolerated HNSW failure is dropped with no brute-force fallback. */
  lemma RecoverableHnswFailureIsDropped<V>(
    cfg: Config, build: Builder<V>, ds: seq<V>, base: nat, m: string, partial: seq<byte>)
    requires cfg.indexType == HNSW && |ds| > MIN_CAGRA_INDEX_SIZE
    requires build(HnswKind, CagraParams(cfg.writerThreads, cfg.intGraphDegree, cfg.graphDegree, NN_DESCENT), ds)
      == Thrown(Some(m), partial)
    requires Contains(m, CANNOT_GENERATE_CAGRA)
    ensures FieldSpec(cfg, build, ds, base)
      == FieldWrite(partial, Ok(Placement(base, 0, base, 0, base, |partial|)))
  {
  }
}
